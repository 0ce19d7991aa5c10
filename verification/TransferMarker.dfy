/**
 The ASP1 line that precedes a transfer.  What the helper in the sandbox prints, the control
 plane reads back, and it reads nothing of the body.  Streams are sequences of bytes, one per
 character.
 */
module TransferMarker {
  import opened Wrappers
  import opened Bytes
  import opened Splitting

  const MAX_MARKER_BYTES := 256
  const DIGEST_SIZE := 32
  const TWO_TO_THE_63: int := 0x8000_0000_0000_0000

  // ----- Numbers and digests as text ---------------------------------------------------------

  function Digit(d: nat): char
    requires d < 10
  {
    '0' + d as char
  }

  function Decimal(n: nat): (s: string)
    ensures s != []
  {
    (if n < 10 then [] else Decimal(n / 10)) + [Digit(n % 10)]
  }

  predicate IsDigit(c: char) {
    '0' <= c <= '9'
  }

  predicate AllDigits(s: string) {
    forall i | 0 <= i < |s| :: IsDigit(s[i])
  }

  function DigitsValue(s: string): nat
    requires AllDigits(s)
  {
    if s == [] then 0 else DigitsValue(s[..|s| - 1]) * 10 + (s[|s| - 1] - '0') as nat
  }

  /** A decimal 64-bit integer with an optional sign. */
  function ParseInt(s: string): Option<int> {
    if s == [] then None
    else
      var signed := s[0] == '+' || s[0] == '-';
      var digits := if signed then s[1..] else s;
      if digits == [] || !AllDigits(digits) then None
      else
        var n: int := (if s[0] == '-' then -1 else 1) * DigitsValue(digits);
        if -TWO_TO_THE_63 <= n < TWO_TO_THE_63 then Some(n) else None
  }

  function HexDigit(d: nat): char
    requires d < 16
  {
    if d < 10 then '0' + d as char else 'a' + (d - 10) as char
  }

  function HexValue(c: char): Option<nat> {
    if '0' <= c <= '9' then Some((c - '0') as nat)
    else if 'a' <= c <= 'f' then Some((c - 'a') as nat + 10)
    else if 'A' <= c <= 'F' then Some((c - 'A') as nat + 10)
    else None
  }

  function Hex(bytes: seq<byte>): (s: string)
    ensures |s| == 2 * |bytes|
  {
    if bytes == [] then [] else [HexDigit(bytes[0] / 16), HexDigit(bytes[0] % 16)] + Hex(bytes[1..])
  }

  function HexDecode(s: string): Option<seq<byte>> {
    if s == [] then Some([])
    else if |s| == 1 then None
    else
      var high, low, rest := HexValue(s[0]), HexValue(s[1]), HexDecode(s[2..]);
      if high.None? || low.None? || rest.None? || high.value >= 16 || low.value >= 16 then None
      else Some([(high.value * 16 + low.value) as byte] + rest.value)
  }

  lemma {:induction false} DecimalRoundTrip(n: nat)
    ensures AllDigits(Decimal(n)) && DigitsValue(Decimal(n)) == n
  {
    var s := Decimal(n);
    if n >= 10 {
      DecimalRoundTrip(n / 10);
      assert s[..|s| - 1] == Decimal(n / 10);
    } else {
      assert s[..0] == [];
    }
  }

  lemma ParseDecimal(n: nat)
    requires n < TWO_TO_THE_63
    ensures ParseInt(Decimal(n)) == Some(n)
  {
    DecimalRoundTrip(n);
    assert IsDigit(Decimal(n)[0]);
  }

  lemma ParseDigits(sign: string, digits: string)
    requires (sign == "" || sign == "+" || sign == "-") && digits != [] && AllDigits(digits)
    ensures var n: int := (if sign == "-" then -1 else 1) * DigitsValue(digits);
      ParseInt(sign + digits) == if -TWO_TO_THE_63 <= n < TWO_TO_THE_63 then Some(n) else None
  {
    hide DigitsValue;
    assert IsDigit(digits[0]);
    if sign == "" {
      assert sign + digits == digits;
    } else {
      assert (sign + digits)[1..] == digits && (sign + digits)[0] == sign[0];
    }
  }

  /** A number with a sign, or without one, is read exactly if it fits sixty-four bits. */
  lemma ParseSigned(n: nat)
    ensures ParseInt(Decimal(n)) == ParseInt("+" + Decimal(n)) == if n < TWO_TO_THE_63 then Some(n as int) else None
    ensures ParseInt("-" + Decimal(n)) == if n <= TWO_TO_THE_63 then Some(-(n as int)) else None
  {
    hide Decimal, ParseInt;
    DecimalRoundTrip(n);
    ParseDigits("", Decimal(n));
    ParseDigits("+", Decimal(n));
    ParseDigits("-", Decimal(n));
    assert "" + Decimal(n) == Decimal(n);
  }

  /** A digit is read in either case. */
  lemma HexEitherCase(d: nat)
    requires 10 <= d < 16
    ensures HexValue('a' + (d - 10) as char) == HexValue('A' + (d - 10) as char) == Some(d)
  {
  }

  lemma {:induction false} HexRoundTrip(bytes: seq<byte>)
    ensures HexDecode(Hex(bytes)) == Some(bytes)
    ensures forall c | c in Hex(bytes) :: c != ' ' && c != '\n'
  {
    if bytes != [] {
      HexRoundTrip(bytes[1..]);
      assert Hex(bytes)[2..] == Hex(bytes[1..]);
      assert bytes == [bytes[0]] + bytes[1..];
    }
  }

  function Pow10(k: nat): nat {
    if k == 0 then 1 else 10 * Pow10(k - 1)
  }

  lemma {:induction false} DecimalLength(n: nat, k: nat)
    requires n < Pow10(k) && k > 0
    ensures |Decimal(n)| <= k
  {
    if n >= 10 {
      assert k > 1 by {
        assert Pow10(1) == 10 * Pow10(0);
      }
      DecimalLength(n / 10, k - 1);
    }
  }

  lemma DecimalFits(n: nat)
    requires n < TWO_TO_THE_63
    ensures |Decimal(n)| <= 19
  {
    assert Pow10(5) == 100_000;
    assert Pow10(10) == 10_000_000_000;
    assert Pow10(15) == 1_000_000_000_000_000;
    assert Pow10(19) == 10_000_000_000_000_000_000;
    DecimalLength(n, 19);
  }

  // ----- Printing ----------------------------------------------------------------------------

  const MAGIC := "ASP1"

  function DownloadLine(size: nat, digest: seq<byte>): string {
    MAGIC + " " + "OK" + " " + Decimal(size) + " " + Hex(digest)
  }

  /** What a download writes: the line, and then the body as it was hashed. */
  function Download(size: nat, digest: seq<byte>, body: string): string {
    DownloadLine(size, digest) + "\n" + body
  }

  function UploadLine(): string {
    MAGIC + " " + "OK"
  }

  function ErrorLine(code: string): string {
    MAGIC + " " + "ERR" + " " + code
  }

  // ----- Parsing -----------------------------------------------------------------------------

  datatype Marker = Content(size: int, digest: seq<byte>) | Done | Refused(code: string) | Invalid

  function ParseMarker(line: string): Marker {
    var parts := Split(line, ' ');
    if |parts| == 3 && parts[0] == MAGIC && parts[1] == "ERR" && parts[2] != "" then Refused(parts[2])
    else if |parts| == 2 && parts[0] == MAGIC && parts[1] == "OK" then Done
    else if |parts| == 4 && parts[0] == MAGIC && parts[1] == "OK" then
      var size, digest := ParseInt(parts[2]), HexDecode(parts[3]);
      if size.Some? && digest.Some? && |digest.value| == DIGEST_SIZE then Content(size.value, digest.value) else Invalid
    else Invalid
  }

  /** Where the first newline is, or the length. */
  function LineEnd(input: string): (k: nat)
    ensures k <= |input| && (k < |input| ==> input[k] == '\n') && '\n' !in input[..k]
  {
    if input == [] || input[0] == '\n' then 0 else
      assert input[..1 + LineEnd(input[1..])] == [input[0]] + input[1..][..LineEnd(input[1..])];
      1 + LineEnd(input[1..])
  }

  /** The marker at the head of a stream and how many bytes were taken off it. */
  function ReadSpec(input: string): (Marker, nat) {
    var k := LineEnd(input);
    if k < |input| && k < MAX_MARKER_BYTES then (ParseMarker(input[..k]), k + 1)
    else (Invalid, if |input| < MAX_MARKER_BYTES then |input| else MAX_MARKER_BYTES)
  }

  lemma {:induction false} LineEndIs(line: string, rest: string)
    requires '\n' !in line
    ensures LineEnd(line + "\n" + rest) == |line|
  {
    var s := line + "\n" + rest;
    if line != [] {
      LineEndIs(line[1..], rest);
      assert s[1..] == line[1..] + "\n" + rest;
    }
  }

  /** Without a newline before it, the line ends no earlier than `i`, and at `i` if there is one there. */
  lemma {:induction false} LineEndsFrom(input: string, i: nat)
    requires i <= |input| && '\n' !in input[..i]
    ensures LineEnd(input) >= i && (i < |input| && input[i] == '\n' ==> LineEnd(input) == i)
    decreases i
  {
    if i > 0 {
      assert input[..i][0] == input[0] && input[..i][1..] == input[1..][..i - 1];
      LineEndsFrom(input[1..], i - 1);
    }
  }

  /** Byte by byte, so that nothing behind the newline is taken. */
  method ReadMarker(input: string) returns (marker: Marker, taken: nat)
    ensures (marker, taken) == ReadSpec(input)
  {
    var buffer: string := [];
    while |buffer| < MAX_MARKER_BYTES
      invariant |buffer| <= MAX_MARKER_BYTES && |buffer| <= |input| && buffer == input[..|buffer|] && '\n' !in buffer
      decreases MAX_MARKER_BYTES - |buffer|
    {
      LineEndsFrom(input, |buffer|);
      if |buffer| == |input| {
        return Invalid, |buffer|;
      }
      var one := input[|buffer|];
      if one == '\n' {
        return ParseMarker(buffer), |buffer| + 1;
      }
      buffer := buffer + [one];
    }
    LineEndsFrom(input, |buffer|);
    return Invalid, |buffer|;
  }

  // ----- Round trips -------------------------------------------------------------------------

  lemma PlainFields(size: nat, digest: seq<byte>)
    ensures ' ' !in Decimal(size) && '\n' !in Decimal(size) && ' ' !in Hex(digest) && '\n' !in Hex(digest)
  {
    DecimalRoundTrip(size);
    HexRoundTrip(digest);
  }

  lemma SplitDownloadLine(size: nat, digest: seq<byte>)
    ensures Split(DownloadLine(size, digest), ' ') == [MAGIC, "OK", Decimal(size), Hex(digest)]
  {
    hide Decimal, Hex, Split;
    var d, h := Decimal(size), Hex(digest);
    PlainFields(size, digest);
    SplitWhole(h, ' ');
    SplitFirst(d, ' ', h);
    SplitFirst("OK", ' ', d + " " + h);
    SplitFirst(MAGIC, ' ', "OK" + " " + (d + " " + h));
    assert DownloadLine(size, digest) == MAGIC + " " + ("OK" + " " + (d + " " + h));
  }

  lemma DownloadLineFits(size: nat, digest: seq<byte>)
    requires size < TWO_TO_THE_63 && |digest| == DIGEST_SIZE
    ensures '\n' !in DownloadLine(size, digest) && |DownloadLine(size, digest)| < MAX_MARKER_BYTES
  {
    hide Decimal, Hex;
    PlainFields(size, digest);
    DecimalFits(size);
  }

  lemma ParseDownloadLine(size: nat, digest: seq<byte>)
    requires size < TWO_TO_THE_63 && |digest| == DIGEST_SIZE
    ensures ParseMarker(DownloadLine(size, digest)) == Content(size, digest)
  {
    hide Decimal, Hex, Split, DownloadLine, ParseInt, HexDecode;
    SplitDownloadLine(size, digest);
    ParseDecimal(size);
    HexRoundTrip(digest);
  }

  /** Reading a download gives its size and digest, and leaves exactly the body. */
  lemma DownloadReadsBack(size: nat, digest: seq<byte>, body: string)
    requires size < TWO_TO_THE_63 && |digest| == DIGEST_SIZE
    ensures var (marker, taken) := ReadSpec(Download(size, digest, body));
      marker == Content(size, digest) && taken <= |Download(size, digest, body)| && Download(size, digest, body)[taken..] == body
  {
    var line := DownloadLine(size, digest);
    ParseDownloadLine(size, digest);
    DownloadLineFits(size, digest);
    LineEndIs(line, body);
    assert Download(size, digest, body)[..|line|] == line;
  }

  lemma ParseAnswers(code: string)
    requires code != "" && ' ' !in code
    ensures ParseMarker(ErrorLine(code)) == Refused(code) && ParseMarker(UploadLine()) == Done
  {
    SplitWhole(code, ' ');
    SplitFirst("ERR", ' ', code);
    SplitFirst(MAGIC, ' ', "ERR" + " " + code);
    assert ErrorLine(code) == MAGIC + " " + ("ERR" + " " + code);
    SplitWhole("OK", ' ');
    SplitFirst(MAGIC, ' ', "OK");
  }

  /** Any line without a newline in it is read as a marker exactly when it is shorter than the limit. */
  lemma LineReadsBack(line: string, rest: string)
    requires '\n' !in line
    ensures |line| < MAX_MARKER_BYTES ==> ReadSpec(line + "\n" + rest) == (ParseMarker(line), |line| + 1)
    ensures |line| >= MAX_MARKER_BYTES ==> ReadSpec(line + "\n" + rest) == (Invalid, MAX_MARKER_BYTES)
  {
    LineEndIs(line, rest);
    assert (line + "\n" + rest)[..|line|] == line;
  }

  /** A code the line has room for: the limit without the magic and the word before it. */
  predicate CodeFits(code: string) {
    |code| <= MAX_MARKER_BYTES - 10
  }

  /** The answer to a failed download, an error code without blanks, is read back exactly when it fits. */
  lemma RefusalReadsBack(code: string, rest: string)
    requires code != "" && ' ' !in code && '\n' !in code
    ensures ReadSpec(ErrorLine(code) + "\n" + rest).0 == Refused(code) <==> CodeFits(code)
    ensures ReadSpec(ErrorLine(code) + "\n" + rest).0 == Invalid <==> !CodeFits(code)
  {
    ParseAnswers(code);
    LineReadsBack(ErrorLine(code), rest);
  }

  // ----- The answer to an upload -------------------------------------------------------------

  /** What a command prints, up to a limit; the rest is dropped and remembered as too much. */
  class BoundedBuffer {
    const limit: nat
    var value: string
    var exceeded: bool

    constructor (limit: nat)
      ensures this.limit == limit && Holds([])
    {
      this.limit, value, exceeded := limit, [], false;
    }

    /** What is kept of all that was written. */
    predicate Holds(written: string)
      reads this
    {
      value == Shorten(written, limit) && (exceeded <==> |written| > limit)
    }

    /** Every write claims to have taken everything. */
    method Write(chunk: string) returns (taken: nat)
      modifies this
      ensures taken == |chunk|
      ensures forall written | old(Holds(written)) :: Holds(written + chunk)
    {
      ghost var before, was := value, exceeded;
      var available := limit - |value|;
      if available > 0 {
        value := value + chunk[..if available < |chunk| then available else |chunk|];
      }
      if |chunk| > available {
        exceeded := true;
      }
      forall written | before == Shorten(written, limit) && (was <==> |written| > limit) ensures Holds(written + chunk) {
        ShortenTwice(written, chunk, limit);
      }
      return |chunk|;
    }
  }

  function Shorten(s: string, limit: nat): string {
    if |s| <= limit then s else s[..limit]
  }

  lemma ShortenTwice(s: string, t: string, limit: nat)
    ensures |s| < limit ==> Shorten(s + t, limit) == s + Shorten(t, limit - |s|)
    ensures |s| >= limit ==> Shorten(s + t, limit) == Shorten(s, limit)
  {
  }

  function TrimNewline(s: string): string {
    if s != [] && s[|s| - 1] == '\n' then s[..|s| - 1] else s
  }

  /** The answer to an upload: everything printed, less one newline at the end, must be one marker. */
  function AnswerSpec(written: string): Marker {
    if |written| > MAX_MARKER_BYTES then Invalid else ParseMarker(TrimNewline(written))
  }

  /** How the run of the helper ended. */
  datatype RunEnd = Clean | Canceled | Failed

  datatype UploadResult = Uploaded | Aborted | LengthMismatch | Remote(code: string) | TransferFailed

  function UploadSpec(written: string, aborted: bool, shortInput: bool, end: RunEnd): UploadResult {
    if aborted then Aborted
    else if shortInput then LengthMismatch
    else if AnswerSpec(written).Refused? then Remote(AnswerSpec(written).code)
    else if end.Clean? && !AnswerSpec(written).Invalid? then Uploaded
    else if end.Canceled? then Aborted
    else TransferFailed
  }

  /** Judge an upload by what the helper printed and how its run ended. */
  method JudgeUpload(stdout: BoundedBuffer, ghost written: string, aborted: bool, shortInput: bool, end: RunEnd) returns (result: UploadResult)
    requires stdout.limit == MAX_MARKER_BYTES && stdout.Holds(written)
    ensures result == UploadSpec(written, aborted, shortInput, end)
  {
    if aborted {
      return Aborted;
    }
    if shortInput {
      return LengthMismatch;
    }
    if !stdout.exceeded {
      var marker := ParseMarker(TrimNewline(stdout.value));
      if marker.Refused? {
        return Remote(marker.code);
      }
      if !marker.Invalid? && end.Clean? {
        return Uploaded;
      }
    }
    return if end.Canceled? then Aborted else TransferFailed;
  }

  /** An abort is reported before anything else, a short body next, and only then what the helper said; success needs a clean end. */
  lemma UploadJudgedExactly(written: string, aborted: bool, shortInput: bool, end: RunEnd)
    ensures var r, answer := UploadSpec(written, aborted, shortInput, end), AnswerSpec(written);
      && (r == Aborted <==> aborted || (!shortInput && !answer.Refused? && end == Canceled))
      && (r == LengthMismatch <==> !aborted && shortInput)
      && (r.Remote? <==> !aborted && !shortInput && answer.Refused?)
      && (r == Uploaded <==> !aborted && !shortInput && (answer.Done? || answer.Content?) && end == Clean)
  {
  }

  /** On one line with its newline, the two readers agree. */
  lemma ReadersAgree(line: string)
    requires '\n' !in line
    ensures AnswerSpec(line + "\n") == ReadSpec(line + "\n").0
  {
    LineReadsBack(line, []);
    assert line + "\n" + [] == line + "\n";
    assert TrimNewline(line + "\n") == line;
  }

  /** Success is answered by the upload's line alone, with or without its newline: anything before or after it spoils it. */
  lemma UploadAnsweredExactly(written: string)
    ensures AnswerSpec(written) == Done <==> written == UploadLine() || written == UploadLine() + "\n"
  {
    hide ParseMarker;
    var line := TrimNewline(written);
    assert written == line || written == line + "\n";
    DoneIsOneLine(line);
    assert TrimNewline(UploadLine() + "\n") == UploadLine();
  }

  lemma DoneIsOneLine(line: string)
    ensures ParseMarker(line) == Done <==> line == UploadLine()
  {
    ParseAnswers("x");
    if ParseMarker(line) == Done {
      JoinSplit(line, ' ');
      JoinTwo(Split(line, ' '));
    }
  }

  lemma JoinTwo(parts: seq<string>)
    requires parts == [MAGIC, "OK"]
    ensures Join(parts, ' ') == UploadLine()
  {
    assert Join(parts[1..], ' ') == "OK";
  }

  /**
   What the helper prints is what the caller is told: a code that fits, even though the failed run ends
   with an error, and success if the run ended well.  A longer code is lost in the bounded buffer.
   */
  lemma UploadReadsBack(code: string, end: RunEnd)
    requires code != "" && ' ' !in code && '\n' !in code
    ensures UploadSpec(ErrorLine(code) + "\n", false, false, end) ==
      if CodeFits(code) then Remote(code) else if end.Canceled? then Aborted else TransferFailed
    ensures UploadSpec(UploadLine() + "\n", false, false, end) ==
      if end.Clean? then Uploaded else if end.Canceled? then Aborted else TransferFailed
  {
    ParseAnswers(code);
    assert TrimNewline(ErrorLine(code) + "\n") == ErrorLine(code);
    assert TrimNewline(UploadLine() + "\n") == UploadLine();
  }

  /** Two downloads that agree on the wire agree in size, digest and body: no body can pass for part of a line. */
  lemma DownloadsAreUnambiguous(size: nat, digest: seq<byte>, body: string, size': nat, digest': seq<byte>, body': string)
    requires size < TWO_TO_THE_63 && size' < TWO_TO_THE_63 && |digest| == |digest'| == DIGEST_SIZE
    requires Download(size, digest, body) == Download(size', digest', body')
    ensures size == size' && digest == digest' && body == body'
  {
    DownloadReadsBack(size, digest, body);
    DownloadReadsBack(size', digest', body');
  }
}
