/**
 Normalising a start request.  The environment becomes a sorted list of "key=value" strings,
 so that equal requests have equal specifications whatever order a map is walked in, and
 different requests different ones.  Strings are sequences of bytes, one per character.
 */
module Specification {
  import opened Splitting
  import opened StringOrder
  import opened Supervisor

  const WORKSPACE := "/workspace"
  const MAX_REQUEST_ID := 200
  const MAX_ENTRIES := 256
  const MAX_KEY := 256
  const MAX_VALUE := 64 * 1024
  const MAX_REQUEST_BYTES := 1024 * 1024

  type Environment = map<string, string>

  datatype Request = Request(requestId: string, argv: seq<string>, cwd: string, env: Environment)

  // ----- The environment list ----------------------------------------------------------------

  function Binding(key: string, value: string): string {
    key + "=" + value
  }

  function Bindings(keys: seq<string>, env: Environment): seq<string>
    requires forall k | k in keys :: k in env
  {
    if keys == [] then [] else [Binding(keys[0], env[keys[0]])] + Bindings(keys[1..], env)
  }

  /** `list` is the canonical rendering of the environment. */
  ghost predicate Canonical(list: seq<string>, env: Environment) {
    exists keys :: Sorted(keys, env.Keys) && (forall k | k in keys :: k in env) && list == Bindings(keys, env)
  }

  /** The canonical list does not depend on the order in which the map was walked. */
  lemma CanonicalUnique(a: seq<string>, b: seq<string>, env: Environment)
    requires Canonical(a, env) && Canonical(b, env)
    ensures a == b
  {
    var ka :| Sorted(ka, env.Keys) && (forall k | k in ka :: k in env) && a == Bindings(ka, env);
    var kb :| Sorted(kb, env.Keys) && (forall k | k in kb :: k in env) && b == Bindings(kb, env);
    SortedUnique(ka, kb, env.Keys);
  }

  /** Without "=" in the keys a binding can be split again. */
  lemma {:induction false} BindingInjective(k: string, v: string, k': string, v': string)
    requires '=' !in k && '=' !in k' && Binding(k, v) == Binding(k', v')
    ensures k == k' && v == v'
    decreases |k|
  {
    var b, b' := Binding(k, v), Binding(k', v');
    assert b[0] == b'[0] && b[1..] == b'[1..];
    assert k != [] ==> b[0] == k[0] && b[1..] == Binding(k[1..], v);
    assert k' != [] ==> b'[0] == k'[0] && b'[1..] == Binding(k'[1..], v');
    assert k == [] ==> b[1..] == v;
    assert k' == [] ==> b'[1..] == v';
    if k != [] && k' != [] {
      BindingInjective(k[1..], v, k'[1..], v');
      assert k == [k[0]] + k[1..] && k' == [k'[0]] + k'[1..];
    }
  }

  predicate PlainKeys(env: Environment) {
    forall k | k in env :: '=' !in k
  }

  lemma {:induction false} BindingsInjective(keys: seq<string>, env: Environment, keys': seq<string>, env': Environment)
    requires (forall k | k in keys :: k in env) && (forall k | k in keys' :: k in env')
    requires PlainKeys(env) && PlainKeys(env') && Bindings(keys, env) == Bindings(keys', env')
    ensures keys == keys' && forall k | k in keys :: env[k] == env'[k]
    decreases |keys|
  {
    if keys != [] && keys' != [] {
      assert Bindings(keys, env)[0] == Bindings(keys', env')[0];
      assert Bindings(keys, env)[1..] == Bindings(keys', env')[1..];
      BindingInjective(keys[0], env[keys[0]], keys'[0], env'[keys'[0]]);
      BindingsInjective(keys[1..], env, keys'[1..], env');
      assert keys == [keys[0]] + keys[1..] && keys' == [keys'[0]] + keys'[1..];
    }
  }

  /** Different environments have different canonical lists. */
  lemma CanonicalInjective(list: seq<string>, env: Environment, env': Environment)
    requires Canonical(list, env) && Canonical(list, env') && PlainKeys(env) && PlainKeys(env')
    ensures env == env'
  {
    var keys :| Sorted(keys, env.Keys) && (forall k | k in keys :: k in env) && list == Bindings(keys, env);
    var keys' :| Sorted(keys', env'.Keys) && (forall k | k in keys' :: k in env') && list == Bindings(keys', env');
    BindingsInjective(keys, env, keys', env');
    SortedMembers(keys, env.Keys);
    SortedMembers(keys', env'.Keys);
    assert env.Keys == env'.Keys;
  }

  // ----- Working directories -----------------------------------------------------------------

  function Parent(stack: seq<string>): seq<string> {
    if stack == [] then [] else stack[..|stack| - 1]
  }

  /** Resolve components against a stack of directories; ".." at the root stays at the root. */
  function Resolve(stack: seq<string>, parts: seq<string>): seq<string>
    decreases |parts|
  {
    if parts == [] then stack
    else if parts[0] == "" || parts[0] == "." then Resolve(stack, parts[1..])
    else if parts[0] == ".." then Resolve(Parent(stack), parts[1..])
    else Resolve(stack + [parts[0]], parts[1..])
  }

  function Join(stack: seq<string>): string {
    if stack == [] then "" else "/" + stack[0] + Join(stack[1..])
  }

  /** Lexical cleaning of a rooted path. */
  function CleanRooted(path: string): string {
    var stack := Resolve([], Split(path, '/'));
    if stack == [] then "/" else Join(stack)
  }

  predicate PlainComponent(p: string) {
    p != "" && p != "." && p != ".." && '/' !in p
  }

  lemma {:induction false} ResolvePlain(stack: seq<string>, parts: seq<string>)
    requires (forall p | p in stack :: PlainComponent(p)) && (forall p | p in parts :: '/' !in p)
    ensures forall p | p in Resolve(stack, parts) :: PlainComponent(p)
    decreases |parts|
  {
    if parts != [] {
      if parts[0] == "" || parts[0] == "." {
        ResolvePlain(stack, parts[1..]);
      } else if parts[0] == ".." {
        ResolvePlain(Parent(stack), parts[1..]);
      } else {
        ResolvePlain(stack + [parts[0]], parts[1..]);
      }
    }
  }

  // ----- What cleaning means -----------------------------------------------------------------

  /** The start of a rooted path: nothing, or something that begins with a slash. */
  predicate Rooted(a: string) {
    a == "" || a[0] == '/'
  }

  predicate AllPlain(parts: seq<string>) {
    forall p | p in parts :: PlainComponent(p)
  }

  /** A slash at the end, a doubled slash and a dot mean nothing. */
  ghost predicate IgnoresEmpty(clean: string -> string) {
    && clean("/") == "/"
    && (forall a: string | a != "" && Rooted(a) :: clean(a + "/") == clean(a))
    && (forall a: string, b: string | Rooted(a) :: clean(a + "//" + b) == clean(a + "/" + b))
    && (forall a: string, b: string | Rooted(a) :: clean(a + "/./" + b) == clean(a + "/" + b))
  }

  /** Two dots take back the component before them, and nothing at the root. */
  ghost predicate TakesBack(clean: string -> string) {
    && (forall b: string :: clean("/../" + b) == clean("/" + b))
    && (forall a: string, c: string, b: string | Rooted(a) && PlainComponent(c) :: clean(a + "/" + c + "/../" + b) == clean(a + "/" + b))
  }

  /** The laws of cleaning a rooted path; a path of plain components is clean. */
  ghost predicate Cleans(clean: string -> string) {
    && IgnoresEmpty(clean) && TakesBack(clean)
    && (forall stack: seq<string> | stack != [] && AllPlain(stack) :: clean(Join(stack)) == Join(stack))
  }

  lemma {:induction false} ResolveConcat(stack: seq<string>, p: seq<string>, q: seq<string>)
    ensures Resolve(stack, p + q) == Resolve(Resolve(stack, p), q)
    decreases |p|
  {
    if p == [] {
      assert p + q == q;
    } else {
      assert (p + q)[1..] == p[1..] + q;
      var stack' := if p[0] == "" || p[0] == "." then stack
                    else if p[0] == ".." then (if stack == [] then [] else stack[..|stack| - 1])
                    else stack + [p[0]];
      ResolveConcat(stack', p[1..], q);
    }
  }

  lemma ResolveOne(stack: seq<string>, p: string)
    ensures PlainComponent(p) ==> Resolve(stack, [p]) == stack + [p]
    ensures p == "" || p == "." ==> Resolve(stack, [p]) == stack
    ensures p == ".." ==> Resolve(stack, [p]) == if stack == [] then [] else stack[..|stack| - 1]
  {
    assert forall s :: Resolve(s, []) == s;
  }

  /** Cleaning depends on what comes before a slash only by the stack it leaves. */
  lemma CleanConcat(a: string, b: string)
    ensures Resolve([], Split(a + "/" + b, '/')) == Resolve(Resolve([], Split(a, '/')), Split(b, '/'))
  {
    SplitConcat(a, '/', b);
    ResolveConcat([], Split(a, '/'), Split(b, '/'));
  }

  lemma CleanPart(a: string, p: string, b: string)
    requires '/' !in p
    ensures Resolve([], Split(a + "/" + p + "/" + b, '/')) == Resolve(Resolve(Resolve([], Split(a, '/')), [p]), Split(b, '/'))
  {
    CleanConcat(a + "/" + p, b);
    CleanConcat(a, p);
    SplitWhole(p, '/');
  }

  lemma CleanIgnoresEmpty()
    ensures IgnoresEmpty(CleanRooted)
  {
    hide Resolve, Split, Join;
    CleanConcat("", "");
    SplitWhole("", '/');
    ResolveOne([], "");
    assert "" + "/" + "" == "/";
    forall a: string | a != "" && Rooted(a) ensures CleanRooted(a + "/") == CleanRooted(a) {
      CleanConcat(a, "");
      ResolveOne(Resolve([], Split(a, '/')), "");
      assert a + "/" + "" == a + "/";
    }
    forall a: string, b: string ensures CleanRooted(a + "//" + b) == CleanRooted(a + "/" + b) {
      CleanPart(a, "", b);
      CleanConcat(a, b);
      ResolveOne(Resolve([], Split(a, '/')), "");
      assert a + "/" + "" + "/" + b == a + "//" + b;
    }
    forall a: string, b: string ensures CleanRooted(a + "/./" + b) == CleanRooted(a + "/" + b) {
      CleanPart(a, ".", b);
      CleanConcat(a, b);
      ResolveOne(Resolve([], Split(a, '/')), ".");
      assert a + "/" + "." + "/" + b == a + "/./" + b;
    }
  }

  lemma CleanTakesBack()
    ensures TakesBack(CleanRooted)
  {
    hide Resolve, Split, Join;
    SplitWhole("", '/');
    ResolveOne([], "");
    ResolveOne([], "..");
    forall b: string ensures CleanRooted("/../" + b) == CleanRooted("/" + b) {
      CleanPart("", "..", b);
      CleanConcat("", b);
      assert "" + "/" + ".." + "/" + b == "/../" + b && "" + "/" + b == "/" + b;
    }
    forall a: string, c: string, b: string | PlainComponent(c) ensures CleanRooted(a + "/" + c + "/../" + b) == CleanRooted(a + "/" + b) {
      var stack := Resolve([], Split(a, '/'));
      CleanPart(a + "/" + c, "..", b);
      CleanConcat(a, c);
      CleanConcat(a, b);
      SplitWhole(c, '/');
      ResolveOne(stack, c);
      ResolveOne(stack + [c], "..");
      assert (stack + [c])[..|stack + [c]| - 1] == stack;
      assert a + "/" + c + "/" + ".." + "/" + b == a + "/" + c + "/../" + b;
    }
  }

  lemma {:induction false} JoinSnoc(stack: seq<string>, p: string)
    ensures Join(stack + [p]) == Join(stack) + "/" + p
  {
    if stack == [] {
      assert stack + [p] == [p] && [p][1..] == [];
    } else {
      assert (stack + [p])[1..] == stack[1..] + [p];
      JoinSnoc(stack[1..], p);
    }
  }

  lemma {:induction false} ResolveJoined(stack: seq<string>)
    requires AllPlain(stack)
    ensures Resolve([], Split(Join(stack), '/')) == stack
    decreases |stack|
  {
    if stack == [] {
      SplitWhole("", '/');
      ResolveOne([], "");
    } else {
      var n := |stack| - 1;
      assert stack == stack[..n] + [stack[n]];
      assert PlainComponent(stack[n]);
      ResolveJoined(stack[..n]);
      JoinSnoc(stack[..n], stack[n]);
      CleanConcat(Join(stack[..n]), stack[n]);
      SplitWhole(stack[n], '/');
      ResolveOne(stack[..n], stack[n]);
    }
  }

  /** The function the program cleans with obeys the laws. */
  lemma CleaningObeysLaws()
    ensures Cleans(CleanRooted)
  {
    CleanIgnoresEmpty();
    CleanTakesBack();
    forall stack: seq<string> | stack != [] && AllPlain(stack) ensures CleanRooted(Join(stack)) == Join(stack) {
      ResolveJoined(stack);
    }
  }

  function Shown(stack: seq<string>): string {
    if stack == [] then "/" else Join(stack)
  }

  lemma LawsOfEmpty(clean: string -> string, a: string, b: string)
    requires Cleans(clean) && Rooted(a)
    ensures clean(a + "/" + "" + "/" + b) == clean(a + "/" + b) && clean(a + "/" + "." + "/" + b) == clean(a + "/" + b)
  {
    assert a + "/" + "" + "/" + b == a + "//" + b;
    assert a + "/" + "." + "/" + b == a + "/./" + b;
  }

  lemma LawsOfParent(clean: string -> string, stack: seq<string>, b: string)
    requires Cleans(clean) && AllPlain(stack)
    ensures clean(Join(stack) + "/" + ".." + "/" + b) == clean(Join(Parent(stack)) + "/" + b)
  {
    hide Cleans, Join, AllPlain;
    if stack == [] {
      EmptyJoin();
      Dots("", b);
      LawAtRoot(clean, b);
    } else {
      var n := |stack| - 1;
      assert stack == stack[..n] + [stack[n]];
      JoinSnoc(stack[..n], stack[n]);
      Dots(Join(stack), b);
      LawBelow(clean, stack[..n], stack[n], b);
    }
  }

  lemma EmptyJoin()
    ensures Join([]) == ""
  {
  }

  lemma Dots(a: string, b: string)
    ensures a + "/" + ".." + "/" + b == a + "/../" + b
  {
  }

  lemma LawAtRoot(clean: string -> string, b: string)
    requires Cleans(clean)
    ensures clean("" + "/../" + b) == clean("" + "/" + b)
  {
    assert "" + "/../" + b == "/../" + b && "" + "/" + b == "/" + b;
  }

  lemma LawBelow(clean: string -> string, stack: seq<string>, c: string, b: string)
    requires Cleans(clean) && AllPlain(stack + [c])
    ensures clean(Join(stack) + "/" + c + "/../" + b) == clean(Join(stack) + "/" + b)
  {
    JoinIsRooted(stack);
    assert c in stack + [c];
  }

  lemma LawsOfEnd(clean: string -> string, stack: seq<string>)
    requires Cleans(clean) && AllPlain(stack)
    ensures clean(Join(stack) + "/") == Shown(stack)
  {
    if stack == [] {
      assert Join(stack) + "/" == "/";
    }
  }

  /** By the laws alone, what follows a clean beginning is worked off from its front. */
  lemma {:induction false} LawsReduce(clean: string -> string, stack: seq<string>, parts: seq<string>)
    requires Cleans(clean) && AllPlain(stack) && (forall p | p in parts :: '/' !in p)
    ensures clean(Join(stack) + "/" + Slashed(parts)) == Shown(Resolve(stack, parts))
    decreases |parts|
  {
    hide Cleans, Join, Shown;
    if parts == [] {
      LawsOfEnd(clean, stack);
      assert Join(stack) + "/" + "" == Join(stack) + "/";
    } else {
      var p, b := parts[0], Slashed(parts[1..]);
      assert Join(stack) + "/" + Slashed(parts) == Join(stack) + "/" + p + "/" + b;
      if p == "" || p == "." {
        JoinIsRooted(stack);
        LawsOfEmpty(clean, Join(stack), b);
        LawsReduce(clean, stack, parts[1..]);
      } else if p == ".." {
        LawsOfParent(clean, stack, b);
        LawsReduce(clean, Parent(stack), parts[1..]);
      } else {
        JoinSnoc(stack, p);
        LawsReduce(clean, stack + [p], parts[1..]);
      }
    }
  }

  lemma JoinIsRooted(stack: seq<string>)
    ensures Rooted(Join(stack))
  {
  }

  /** Components with a slash after each. */
  function Slashed(parts: seq<string>): string {
    if parts == [] then "" else parts[0] + "/" + Slashed(parts[1..])
  }

  lemma {:induction false} SplitSlashed(path: string)
    ensures Slashed(Split(path, '/')) == path + "/"
  {
    if path == [] {
      assert Slashed([""]) == "" + "/" + Slashed([""][1..]);
    } else {
      var rest := Split(path[1..], '/');
      SplitSlashed(path[1..]);
      assert path == [path[0]] + path[1..];
      if path[0] == '/' {
        assert ([""] + rest)[1..] == rest;
        assert Slashed([""] + rest) == "/" + Slashed(rest);
      } else {
        var parts := [[path[0]] + rest[0]] + rest[1..];
        assert parts[1..] == rest[1..];
        assert Slashed(parts) == [path[0]] + (rest[0] + "/" + Slashed(rest[1..]));
      }
    }
  }

  /** The laws leave no choice: whatever obeys them cleans every rooted path as the program does. */
  lemma CleaningIsUnique(clean: string -> string, path: string)
    requires Cleans(clean) && path != "" && path[0] == '/'
    ensures clean(path) == CleanRooted(path)
  {
    var rest := path[1..];
    assert path == "/" + rest;
    LawsReduce(clean, [], Split(rest, '/'));
    SplitSlashed(rest);
    assert Join([]) + "/" + (rest + "/") == path + "/";
    CleanConcat("", rest);
    SplitWhole("", '/');
    ResolveOne([], "");
    assert "" + "/" + rest == path;
  }

  // ----- The whole request -------------------------------------------------------------------

  predicate ValidRequestId(id: string) {
    id != "" && |id| <= MAX_REQUEST_ID
  }

  predicate ValidArgv(argv: seq<string>) {
    0 < |argv| <= MAX_ENTRIES && forall a | a in argv :: |a| <= MAX_VALUE && '\0' !in a
  }

  predicate ValidBinding(key: string, value: string) {
    key != "" && |key| <= MAX_KEY && |value| <= MAX_VALUE && '=' !in key && '\0' !in key && '\0' !in value
  }

  function CleanCwd(cwd: string): string {
    if cwd == "" then WORKSPACE else if cwd[0] == '/' then CleanRooted(cwd) else cwd
  }

  predicate InWorkspace(cwd: string) {
    cwd == WORKSPACE || WORKSPACE + "/" <= cwd
  }

  predicate Acceptable(req: Request) {
    && ValidRequestId(req.requestId)
    && ValidArgv(req.argv)
    && InWorkspace(CleanCwd(req.cwd))
    && |req.env| <= MAX_ENTRIES
    && forall k | k in req.env :: ValidBinding(k, req.env[k])
  }

  /** The limits of a request, in figures. */
  lemma AcceptableExactly(req: Request)
    ensures req.cwd == "" ==> CleanCwd(req.cwd) == "/workspace"
    ensures Acceptable(req) <==>
              && 1 <= |req.requestId| <= 200
              && 1 <= |req.argv| <= 256 && (forall i, j | 0 <= i < |req.argv| && 0 <= j < |req.argv[i]| :: req.argv[i][j] != '\0')
              && (forall i | 0 <= i < |req.argv| :: |req.argv[i]| <= 65536)
              && (CleanCwd(req.cwd) == "/workspace" || "/workspace/" <= CleanCwd(req.cwd))
              && |req.env| <= 256
              && (forall k | k in req.env ::
                    && 1 <= |k| <= 256 && |req.env[k]| <= 65536
                    && (forall i | 0 <= i < |k| :: k[i] != '=' && k[i] != '\0') && (forall i | 0 <= i < |req.env[k]| :: req.env[k][i] != '\0'))
  {
    assert WORKSPACE + "/" == "/workspace/";
  }

  datatype NormalizeResult = Normalized(requestId: string, spec: Spec) | InvalidArgument

  /** The keys in byte order, walking the map in no particular order; stops at an invalid entry. */
  method SortKeys(env: Environment) returns (ok: bool, keys: seq<string>)
    ensures ok <==> forall k | k in env :: ValidBinding(k, env[k])
    ensures ok ==> Sorted(keys, env.Keys)
  {
    keys := [];
    ghost var walked: set<string> := {};
    var rest := env.Keys;
    while rest != {}
      invariant walked !! rest && walked + rest == env.Keys
      invariant Sorted(keys, walked)
      invariant forall k | k in walked :: ValidBinding(k, env[k])
      decreases rest
    {
      var key :| key in rest;
      if !ValidBinding(key, env[key]) {
        return false, [];
      }
      InsertSorted(keys, walked, key);
      keys := Insert(keys, key);
      walked, rest := walked + {key}, rest - {key};
    }
    assert walked == env.Keys;
    return true, keys;
  }

  method RenderBindings(keys: seq<string>, env: Environment) returns (list: seq<string>)
    requires forall k | k in keys :: k in env
    ensures list == Bindings(keys, env)
  {
    list := [];
    for i := 0 to |keys|
      invariant list + Bindings(keys[i..], env) == Bindings(keys, env)
    {
      assert keys[i..][1..] == keys[i + 1..];
      list := list + [Binding(keys[i], env[keys[i]])];
    }
  }

  /** Check the request and build its specification; `rendered` is the length of a specification's JSON text. */
  method Normalize(req: Request, rendered: Spec -> nat) returns (result: NormalizeResult)
    ensures result.Normalized? <==>
              Acceptable(req) && forall env | Canonical(env, req.env) :: rendered(Spec(req.argv, CleanCwd(req.cwd), env)) <= MAX_REQUEST_BYTES
    ensures result.Normalized? ==>
              && result.requestId == req.requestId
              && result.spec.argv == req.argv && result.spec.cwd == CleanCwd(req.cwd)
              && Canonical(result.spec.env, req.env)
    ensures result.Normalized? ==>
              if req.cwd == "" then result.spec.cwd == WORKSPACE
              else req.cwd[0] == '/' && forall clean | Cleans(clean) :: result.spec.cwd == clean(req.cwd)
  {
    if !ValidRequestId(req.requestId) || !ValidArgv(req.argv) {
      return InvalidArgument;
    }
    var cwd := CleanCwd(req.cwd);
    if !InWorkspace(cwd) || |req.env| > MAX_ENTRIES {
      return InvalidArgument;
    }
    var ok, keys := SortKeys(req.env);
    if !ok {
      return InvalidArgument;
    }
    SortedMembers(keys, req.env.Keys);
    var env := RenderBindings(keys, req.env);
    assert Canonical(env, req.env);
    forall other | Canonical(other, req.env) ensures other == env {
      CanonicalUnique(other, env, req.env);
    }
    if rendered(Spec(req.argv, cwd, env)) > MAX_REQUEST_BYTES {
      return InvalidArgument;
    }
    forall clean | Cleans(clean) && req.cwd != "" ensures cwd == clean(req.cwd) {
      CleaningIsUnique(clean, req.cwd);
    }
    return Normalized(req.requestId, Spec(req.argv, cwd, env));
  }

  /** Specifications agree exactly when argv, cleaned directory and environment agree. */
  lemma SameSpecExactly(a: Request, specA: Spec, b: Request, specB: Spec)
    requires Acceptable(a) && specA.argv == a.argv && specA.cwd == CleanCwd(a.cwd) && Canonical(specA.env, a.env)
    requires Acceptable(b) && specB.argv == b.argv && specB.cwd == CleanCwd(b.cwd) && Canonical(specB.env, b.env)
    ensures specA == specB <==> a.argv == b.argv && CleanCwd(a.cwd) == CleanCwd(b.cwd) && a.env == b.env
  {
    if specA == specB {
      assert PlainKeys(a.env) by { assert forall k | k in a.env :: ValidBinding(k, a.env[k]); }
      assert PlainKeys(b.env) by { assert forall k | k in b.env :: ValidBinding(k, b.env[k]); }
      CanonicalInjective(specA.env, a.env, b.env);
    }
    if a.env == b.env {
      CanonicalUnique(specA.env, specB.env, a.env);
    }
  }

  /** An accepted directory is the workspace or beneath it, by plain components only: no "..", no way out. */
  lemma AcceptedCwdIsConfined(req: Request)
    requires Acceptable(req)
    ensures exists below: seq<string> ::
              CleanCwd(req.cwd) == Join(["workspace"] + below) && forall p | p in below :: PlainComponent(p)
  {
    var cwd := CleanCwd(req.cwd);
    if req.cwd == "" {
      assert Join(["workspace"] + []) == "/" + "workspace" + Join([]);
      assert cwd == Join(["workspace"] + []);
    } else {
      assert WORKSPACE[0] == '/' && cwd[0] == '/';
      var stack := Resolve([], Split(req.cwd, '/'));
      ResolvePlain([], Split(req.cwd, '/'));
      assert stack != [];
      FirstComponent(stack);
      assert stack == ["workspace"] + stack[1..];
    }
  }

  // ----- Climbing ----------------------------------------------------------------------------

  /** So many times up. */
  function Climb(ups: nat): string {
    if ups == 0 then "" else Climb(ups - 1) + "/" + ".."
  }

  function Up(stack: seq<string>, ups: nat): seq<string> {
    if ups <= |stack| then stack[..|stack| - ups] else []
  }

  lemma CleanNext(a: string, p: string)
    requires '/' !in p
    ensures Resolve([], Split(a + "/" + p, '/')) == Resolve(Resolve([], Split(a, '/')), [p])
  {
    CleanConcat(a, p);
    SplitWhole(p, '/');
  }

  lemma {:induction false} ResolveClimb(a: string, ups: nat)
    ensures Resolve([], Split(a + Climb(ups), '/')) == Up(Resolve([], Split(a, '/')), ups)
  {
    hide Resolve, Split;
    if ups == 0 {
      assert a + "" == a;
    } else {
      ResolveClimb(a, ups - 1);
      assert a + Climb(ups) == (a + Climb(ups - 1)) + "/" + "..";
      CleanNext(a + Climb(ups - 1), "..");
      ResolveOne(Up(Resolve([], Split(a, '/')), ups - 1), "..");
    }
  }

  lemma {:induction false} ResolveAppended(a: string, rest: seq<string>)
    requires AllPlain(rest)
    ensures Resolve([], Split(a + Join(rest), '/')) == Resolve([], Split(a, '/')) + rest
    decreases |rest|
  {
    hide Resolve, Split, Join;
    if rest == [] {
      EmptyJoin();
      assert a + "" == a;
    } else {
      var before, last := rest[..|rest| - 1], rest[|rest| - 1];
      assert rest == before + [last] && PlainComponent(last);
      ResolveAppended(a, before);
      JoinSnoc(before, last);
      Grouped(a, Join(before), last);
      CleanNext(a + Join(before), last);
      ResolveOne(Resolve([], Split(a, '/')) + before, last);
    }
  }

  lemma Grouped(a: string, b: string, c: string)
    ensures a + (b + "/" + c) == (a + b) + "/" + c
  {
  }

  /** A clean path is in the workspace exactly when its first component is the workspace. */
  lemma InWorkspaceExactly(stack: seq<string>)
    requires AllPlain(stack)
    ensures InWorkspace(Shown(stack)) <==> stack != [] && stack[0] == "workspace"
  {
    if stack != [] && InWorkspace(Join(stack)) {
      FirstComponent(stack);
    }
    if stack != [] && stack[0] == "workspace" {
      assert Join(stack) == WORKSPACE + Join(stack[1..]);
      assert stack[1..] != [] ==> Join(stack[1..])[0] == '/';
    }
  }

  /** Down into the workspace, up some times, and down again: accepted exactly when it never leaves, or comes back by name. */
  lemma ClimbingExactly(below: seq<string>, ups: nat, rest: seq<string>)
    requires AllPlain(below) && AllPlain(rest)
    ensures var cwd := Join(["workspace"] + below) + Climb(ups) + Join(rest);
      InWorkspace(CleanCwd(cwd)) <==> ups <= |below| || (rest != [] && rest[0] == "workspace")
  {
    var stack := ["workspace"] + below;
    var path := Join(stack) + Climb(ups);
    hide Join, Resolve, Split, Climb, InWorkspace;
    WorkspaceBelow(below, path + Join(rest));
    ResolveJoined(stack);
    ResolveClimb(Join(stack), ups);
    ResolveAppended(path, rest);
    UpIsPlain(stack, ups, rest);
    InWorkspaceExactly(Up(stack, ups) + rest);
  }

  lemma WorkspaceBelow(below: seq<string>, path: string)
    requires AllPlain(below)
    ensures AllPlain(["workspace"] + below)
    ensures Join(["workspace"] + below) <= path ==> path != "" && path[0] == '/'
  {
    assert Join(["workspace"] + below)[0] == '/';
  }

  lemma UpIsPlain(stack: seq<string>, ups: nat, rest: seq<string>)
    requires AllPlain(stack) && AllPlain(rest) && stack != []
    ensures var left := Up(stack, ups) + rest;
      AllPlain(left) && (ups < |stack| ==> left != [] && left[0] == stack[0]) && (ups >= |stack| ==> left == rest)
  {
  }

  lemma ClimbingOutIsRefused(req: Request, below: seq<string>, ups: nat, rest: seq<string>)
    requires AllPlain(below) && AllPlain(rest) && req.cwd == Join(["workspace"] + below) + Climb(ups) + Join(rest)
    requires ups > |below| && (rest == [] || rest[0] != "workspace")
    ensures !Acceptable(req)
  {
    ClimbingExactly(below, ups, rest);
  }

  /** A joined path that starts with the workspace has "workspace" as its first component. */
  lemma FirstComponent(stack: seq<string>)
    requires stack != [] && (forall p | p in stack :: PlainComponent(p)) && InWorkspace(Join(stack))
    ensures stack[0] == "workspace"
  {
    var path, first, rest := Join(stack), stack[0], Join(stack[1..]);
    assert path == "/" + first + rest;
    assert rest == [] || rest[0] == '/';
    assert PlainComponent(first);
    var n := |"workspace"|;
    assert forall i | 1 <= i <= |first| :: path[i] == first[i - 1];
    assert |first| + 1 < |path| ==> path[|first| + 1] == '/';
    assert forall i | 0 <= i < |WORKSPACE| :: path[i] == WORKSPACE[i];
    assert forall i | 1 <= i <= n :: WORKSPACE[i] != '/';
    assert |path| > n + 1 ==> path[n + 1] == '/';
    assert |first| == n;
    assert first == path[1..n + 1] == WORKSPACE[1..];
  }
}
