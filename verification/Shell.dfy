/**
 Quoting for the shell.  The command sent to a pod is read back with the quoting rules of
 sections 2.2.1 and 2.2.2 of the POSIX.1-2017 Shell Command Language: every quoted value is one
 word again, and the caller's command follows untouched.
 */
module Shell {
  import opened Wrappers
  import opened StringOrder

  type Environment = map<string, string>

  // ----- The program -------------------------------------------------------------------------

  /** Each single quote ends the quoted part, stands for itself behind a backslash, and begins the next part. */
  function ReplaceQuotes(value: string): string {
    if value == [] then []
    else (if value[0] == '\'' then "'\\''" else [value[0]]) + ReplaceQuotes(value[1..])
  }

  function Quote(value: string): string {
    "'" + ReplaceQuotes(value) + "'"
  }

  predicate IsLetter(c: char) {
    'a' <= c <= 'z' || 'A' <= c <= 'Z' || c == '_'
  }

  predicate IsDigit(c: char) {
    '0' <= c <= '9'
  }

  /** Letters, digits and underscores, and no digit first. */
  predicate EnvironmentName(key: string): (name: bool)
    ensures name <==>
      && key != "" && !('0' <= key[0] <= '9')
      && forall i | 0 <= i < |key| :: 'a' <= key[i] <= 'z' || 'A' <= key[i] <= 'Z' || key[i] == '_' || '0' <= key[i] <= '9'
  {
    assert forall i | 0 <= i < |key| :: key[i] in key;
    key != "" && IsLetter(key[0]) && forall c | c in key :: IsLetter(c) || IsDigit(c)
  }

  function Exports(keys: seq<string>, env: Environment): seq<string>
    requires forall k | k in keys :: k in env
  {
    if keys == [] then [] else ["export " + keys[0] + "=" + Quote(env[keys[0]])] + Exports(keys[1..], env)
  }

  function JoinAnd(parts: seq<string>): string {
    if parts == [] then "" else if |parts| == 1 then parts[0] else parts[0] + " && " + JoinAnd(parts[1..])
  }

  /** The command line for keys listed in order. */
  function CommandLine(cwd: string, keys: seq<string>, env: Environment, command: string): string
    requires forall k | k in keys :: k in env
  {
    JoinAnd(["cd " + Quote(cwd)] + Exports(keys, env) + [command])
  }

  method ShellCommand(cwd: string, env: Environment, command: string) returns (text: Option<string>)
    ensures text.Some? <==> forall k | k in env :: EnvironmentName(k)
    ensures text.Some? ==> exists keys :: Sorted(keys, env.Keys) && (forall k | k in keys :: k in env) && text.value == CommandLine(cwd, keys, env, command)
  {
    var keys: seq<string> := [];
    ghost var walked: set<string> := {};
    var rest := env.Keys;
    while rest != {}
      invariant walked !! rest && walked + rest == env.Keys
      invariant Sorted(keys, walked) && forall k | k in walked :: EnvironmentName(k)
      decreases rest
    {
      var key :| key in rest;
      if !EnvironmentName(key) {
        return None;
      }
      InsertSorted(keys, walked, key);
      keys := Insert(keys, key);
      walked, rest := walked + {key}, rest - {key};
    }
    assert walked == env.Keys;
    SortedMembers(keys, walked);
    var parts := ["cd " + Quote(cwd)];
    for i := 0 to |keys|
      invariant parts + Exports(keys[i..], env) == ["cd " + Quote(cwd)] + Exports(keys, env)
    {
      assert keys[i..][1..] == keys[i + 1..];
      parts := parts + ["export " + keys[i] + "=" + Quote(env[keys[i]])];
    }
    assert parts + Exports([], env) == parts;
    return Some(JoinAnd(parts + [command]));
  }

  // ----- The reader --------------------------------------------------------------------------

  predicate IsBlank(c: char) {
    c == ' ' || c == '\t'
  }

  predicate IsOperator(c: char) {
    c == '&' || c == '|' || c == ';' || c == '<' || c == '>' || c == '(' || c == ')'
  }

  /** An unquoted word ends at a blank, a newline or an operator. */
  predicate EndsWord(s: string) {
    s == [] || IsBlank(s[0]) || s[0] == '\n' || IsOperator(s[0])
  }

  /** What is not read: expansions, double quotes, patterns, tildes and comments outside quotes. */
  predicate IsSpecial(c: char) {
    c == '"' || c == '$' || c == '`' || c == '*' || c == '?' || c == '[' || c == '~' || c == '#'
  }

  datatype Reading = Word(text: string, rest: string) | NotRead

  function Before(text: string, r: Reading): Reading {
    if r.Word? then Word(text + r.text, r.rest) else r
  }

  /** The rest of a word outside quotes; a backslash preserves the next character, or joins lines. */
  function ReadWord(s: string): (r: Reading)
    ensures r.Word? ==> |r.rest| <= |s|
    decreases |s|
  {
    if EndsWord(s) then Word("", s)
    else if s[0] == '\'' then ReadQuoted(s[1..])
    else if s[0] == '\\' then
      if |s| == 1 then NotRead
      else if s[1] == '\n' then ReadWord(s[2..])
      else Before([s[1]], ReadWord(s[2..]))
    else if IsSpecial(s[0]) then NotRead
    else Before([s[0]], ReadWord(s[1..]))
  }

  /** The rest of a word inside single quotes, where every character stands for itself. */
  function ReadQuoted(s: string): (r: Reading)
    ensures r.Word? ==> |r.rest| <= |s|
    decreases |s|
  {
    if s == [] then NotRead
    else if s[0] == '\'' then ReadWord(s[1..])
    else Before([s[0]], ReadQuoted(s[1..]))
  }

  /** A backslash before a newline joins lines, before anything else preserves it; an unquoted special character is not read. */
  lemma WordRules(c: char, s: string)
    ensures ReadWord("\\\n" + s) == ReadWord(s)
    ensures c != '\n' ==> ReadWord("\\" + [c] + s) == Before([c], ReadWord(s))
    ensures c == '"' || c == '$' || c == '`' || c == '*' || c == '?' || c == '[' || c == '~' || c == '#' ==> ReadWord([c] + s) == NotRead
  {
    assert ("\\\n" + s)[2..] == s && ("\\" + [c] + s)[2..] == s;
  }

  function SkipBlanks(s: string): (rest: string)
    ensures |rest| <= |s| && (rest != [] ==> !IsBlank(rest[0]))
  {
    if s != [] && IsBlank(s[0]) then SkipBlanks(s[1..]) else s
  }

  datatype Simple = Simple(words: seq<string>, rest: string) | NoSimple

  /** The words of a simple command that an and-operator ends, and what follows that operator. */
  function ReadSimple(s: string): Simple
    decreases |s|
  {
    var t := SkipBlanks(s);
    if |t| >= 2 && t[0] == '&' && t[1] == '&' then Simple([], t[2..])
    else if EndsWord(t) then NoSimple
    else
      var w := ReadWord(t);
      if w.NotRead? || |w.rest| >= |t| then NoSimple
      else
        var more := ReadSimple(w.rest);
        if more.NoSimple? then NoSimple else Simple([w.text] + more.words, more.rest)
  }

  datatype AndList = AndList(commands: seq<seq<string>>, rest: string) | NoList

  /** The first `n` commands of an and-list. */
  function ReadAndList(s: string, n: nat): AndList
    decreases n
  {
    if n == 0 then AndList([], s)
    else
      var first := ReadSimple(s);
      if first.NoSimple? then NoList
      else
        var more := ReadAndList(first.rest, n - 1);
        if more.NoList? then NoList else AndList([first.words] + more.commands, more.rest)
  }

  // ----- Reading back what was quoted --------------------------------------------------------

  /** The escaped quote in the middle of a quoted value is read as a quote. */
  lemma EscapedQuote(tail: string)
    ensures ReadQuoted("'\\''" + tail) == Before("'", ReadQuoted(tail))
  {
    var s := "'\\''" + tail;
    assert s[1..] == "\\''" + tail && s[1..][2..] == "'" + tail;
    assert ("'" + tail)[1..] == tail;
    assert ReadWord("'" + tail) == ReadQuoted(tail);
    assert ReadWord(s[1..]) == Before("'", ReadWord("'" + tail));
  }

  lemma {:induction false} QuotedReadsBack(value: string, rest: string)
    requires EndsWord(rest)
    ensures ReadQuoted(ReplaceQuotes(value) + "'" + rest) == Word(value, rest)
    decreases |value|
  {
    if value == [] {
      assert ReplaceQuotes(value) + "'" + rest == "'" + rest;
      assert ("'" + rest)[1..] == rest;
    } else {
      var tail := ReplaceQuotes(value[1..]) + "'" + rest;
      QuotedReadsBack(value[1..], rest);
      assert value == [value[0]] + value[1..];
      if value[0] == '\'' {
        assert ReplaceQuotes(value) + "'" + rest == "'\\''" + tail;
        EscapedQuote(tail);
      } else {
        assert ReplaceQuotes(value) + "'" + rest == [value[0]] + tail;
        assert ([value[0]] + tail)[1..] == tail;
      }
    }
  }

  /** A quoted value is read as exactly one word, the value, whatever ends the word. */
  lemma QuoteReadsBack(value: string, rest: string)
    requires EndsWord(rest)
    ensures ReadWord(Quote(value) + rest) == Word(value, rest)
  {
    var s := Quote(value) + rest;
    assert s[1..] == ReplaceQuotes(value) + "'" + rest;
    QuotedReadsBack(value, rest);
  }

  predicate PlainChar(c: char) {
    IsLetter(c) || IsDigit(c) || c == '='
  }

  /** Plain characters before a word become part of it. */
  lemma {:induction false} PlainReadsBack(plain: string, s: string)
    requires forall c | c in plain :: PlainChar(c)
    ensures ReadWord(plain + s) == Before(plain, ReadWord(s))
    decreases |plain|
  {
    if plain == [] {
      assert plain + s == s;
      assert ReadWord(s).Word? ==> plain + ReadWord(s).text == ReadWord(s).text;
    } else {
      PlainReadsBack(plain[1..], s);
      PlainStep(plain[0], plain[1..] + s);
      assert plain + s == [plain[0]] + (plain[1..] + s);
      assert plain == [plain[0]] + plain[1..];
      assert ReadWord(s).Word? ==> [plain[0]] + (plain[1..] + ReadWord(s).text) == plain + ReadWord(s).text;
    }
  }

  lemma PlainStep(c: char, s: string)
    requires PlainChar(c)
    ensures ReadWord([c] + s) == Before([c], ReadWord(s))
  {
    assert ([c] + s)[1..] == s;
  }

  const AND := " && "

  /** A plain word and a word with a plain beginning and a quoted end, ended by an and-operator. */
  lemma TwoWords(first: string, plain: string, value: string, rest: string)
    requires first != "" && forall c | c in first + plain :: PlainChar(c)
    ensures ReadSimple(first + " " + plain + Quote(value) + AND + rest) == Simple([first, plain + value], " " + rest)
  {
    var second := plain + Quote(value);
    var s := first + " " + second + AND + rest;
    assert s == first + " " + plain + Quote(value) + AND + rest;
    assert forall c | c in first :: c in first + plain;
    assert forall c | c in plain :: c in first + plain;
    var afterFirst := " " + second + AND + rest;
    assert s == first + afterFirst;
    PlainReadsBack(first, afterFirst);
    assert PlainChar(first[0]) && SkipBlanks(s) == s && s[0] == first[0];
    assert first + "" == first;
    assert ReadWord(s) == Word(first, afterFirst);
    SecondWord(plain, value, rest);
    assert ReadSimple(afterFirst) == Simple([plain + value], " " + rest);
    assert [first] + [plain + value] == [first, plain + value];
  }

  lemma SecondWord(plain: string, value: string, rest: string)
    requires forall c | c in plain :: PlainChar(c)
    ensures ReadSimple(" " + (plain + Quote(value)) + AND + rest) == Simple([plain + value], " " + rest)
  {
    var second := plain + Quote(value);
    var afterFirst := " " + second + AND + rest;
    var t := second + AND + rest;
    var afterSecond := AND + rest;
    assert afterFirst[1..] == t;
    assert t[0] == if plain == "" then '\'' else plain[0];
    assert plain != "" ==> PlainChar(plain[0]);
    assert SkipBlanks(afterFirst) == t;
    assert t == plain + (Quote(value) + afterSecond);
    PlainReadsBack(plain, Quote(value) + afterSecond);
    QuoteReadsBack(value, afterSecond);
    assert ReadWord(t) == Word(plain + value, afterSecond);
    EndsWithAnd(rest);
    assert [plain + value] + [] == [plain + value];
  }

  lemma EndsWithAnd(rest: string)
    ensures ReadSimple(AND + rest) == Simple([], " " + rest)
  {
    var s := AND + rest;
    assert SkipBlanks(s) == s[1..];
    assert s[1..][0] == '&' && s[1..][1] == '&' && s[1..][2..] == " " + rest;
  }

  function ExportWords(keys: seq<string>, env: Environment): seq<seq<string>>
    requires forall k | k in keys :: k in env
  {
    if keys == [] then [] else [["export", keys[0] + "=" + env[keys[0]]]] + ExportWords(keys[1..], env)
  }

  lemma {:induction false} ExportsReadBack(keys: seq<string>, env: Environment, command: string)
    requires forall k | k in keys :: k in env && EnvironmentName(k)
    ensures ReadAndList(" " + JoinAnd(Exports(keys, env) + [command]), |keys|) == AndList(ExportWords(keys, env), " " + command)
    decreases |keys|
  {
    if keys == [] {
      assert Exports(keys, env) + [command] == [command];
    } else {
      var key, value := keys[0], env[keys[0]];
      var parts := Exports(keys, env) + [command];
      var later := Exports(keys[1..], env) + [command];
      assert parts[1..] == later && parts[0] == "export " + key + "=" + Quote(value);
      ExportsReadBack(keys[1..], env, command);
      BlankFirst("export", key + "=", value, JoinAnd(later));
      ExportPart(key, value);
      assert JoinAnd(parts) == parts[0] + AND + JoinAnd(later);
    }
  }

  lemma ExportPart(key: string, value: string)
    ensures "export " + key + "=" + Quote(value) == "export" + " " + (key + "=") + Quote(value)
  {
    assert "export " == "export" + " ";
  }

  /** A blank in front of a command is skipped. */
  lemma BlankFirst(first: string, plain: string, value: string, rest: string)
    requires first != "" && forall c | c in first + plain :: PlainChar(c)
    ensures ReadSimple(" " + (first + " " + plain + Quote(value) + AND + rest)) == Simple([first, plain + value], " " + rest)
  {
    var s := first + " " + plain + Quote(value) + AND + rest;
    TwoWords(first, plain, value, rest);
    assert (" " + s)[1..] == s && s[0] == first[0];
    assert first[0] in first + plain;
    assert SkipBlanks(" " + s) == s == SkipBlanks(s);
  }

  /**
   The command line is read as: change to the directory, export each variable with its value, and then
   the caller's own text.
   */
  lemma CommandLineReadsBack(cwd: string, keys: seq<string>, env: Environment, command: string)
    requires forall k | k in keys :: k in env && EnvironmentName(k)
    ensures ReadAndList(CommandLine(cwd, keys, env, command), 1 + |keys|)
         == AndList([["cd", cwd]] + ExportWords(keys, env), " " + command)
  {
    var later := Exports(keys, env) + [command];
    var parts := ["cd " + Quote(cwd)] + Exports(keys, env) + [command];
    assert parts[1..] == later && parts[0] == "cd " + Quote(cwd);
    assert CommandLine(cwd, keys, env, command) == "cd" + " " + "" + Quote(cwd) + AND + JoinAnd(later) by {
      assert "cd" + " " + "" == "cd ";
    }
    TwoWords("cd", "", cwd, JoinAnd(later));
    assert "" + cwd == cwd;
    ExportsReadBack(keys, env, command);
  }
}
