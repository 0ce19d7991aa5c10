/** Strings in byte order, and sets of strings listed in it. */
module StringOrder {
  predicate Less(a: string, b: string) {
    if b == [] then false
    else if a == [] then true
    else a[0] < b[0] || (a[0] == b[0] && Less(a[1..], b[1..]))
  }

  lemma {:induction false} LessTotal(a: string, b: string)
    ensures Less(a, b) || a == b || Less(b, a)
    ensures !(Less(a, b) && Less(b, a))
    decreases |a|
  {
    if a != [] && b != [] && a[0] == b[0] {
      LessTotal(a[1..], b[1..]);
      assert a == [a[0]] + a[1..] && b == [b[0]] + b[1..];
    }
  }

  lemma {:induction false} LessTransitive(a: string, b: string, c: string)
    requires Less(a, b) && Less(b, c)
    ensures Less(a, c)
    decreases |a|
  {
    if a != [] && a[0] == b[0] == c[0] {
      LessTransitive(a[1..], b[1..], c[1..]);
    }
  }

  predicate AtMost(a: string, b: string) {
    a == b || Less(a, b)
  }

  /** `keys` is the set `s` in ascending order. */
  ghost predicate Sorted(keys: seq<string>, s: set<string>) {
    if keys == [] then s == {}
    else
      && keys[0] in s
      && (forall k | k in s :: AtMost(keys[0], k))
      && Sorted(keys[1..], s - {keys[0]})
  }

  lemma {:induction false} SortedUnique(a: seq<string>, b: seq<string>, s: set<string>)
    requires Sorted(a, s) && Sorted(b, s)
    ensures a == b
    decreases |a|
  {
    if a != [] && b != [] {
      LessTotal(a[0], b[0]);
      SortedUnique(a[1..], b[1..], s - {a[0]});
      assert a == [a[0]] + a[1..] && b == [b[0]] + b[1..];
    }
  }

  function Insert(keys: seq<string>, key: string): seq<string> {
    if keys == [] || Less(key, keys[0]) then [key] + keys else [keys[0]] + Insert(keys[1..], key)
  }

  lemma {:induction false} InsertSorted(keys: seq<string>, s: set<string>, key: string)
    requires Sorted(keys, s) && key !in s
    ensures Sorted(Insert(keys, key), s + {key})
    decreases |keys|
  {
    if keys == [] || Less(key, keys[0]) {
      forall k | k in s + {key} ensures AtMost(key, k) {
        if k in s && k != keys[0] {
          LessTransitive(key, keys[0], k);
        }
      }
      assert s + {key} - {key} == s;
      assert ([key] + keys)[1..] == keys;
    } else {
      LessTotal(key, keys[0]);
      InsertSorted(keys[1..], s - {keys[0]}, key);
      var rest := Insert(keys[1..], key);
      assert ([keys[0]] + rest)[1..] == rest;
      assert s + {key} - {keys[0]} == s - {keys[0]} + {key};
    }
  }

  lemma {:induction false} SortedMembers(keys: seq<string>, s: set<string>)
    requires Sorted(keys, s)
    ensures forall k :: k in keys <==> k in s
    decreases |keys|
  {
    if keys != [] {
      SortedMembers(keys[1..], s - {keys[0]});
      assert keys == [keys[0]] + keys[1..];
    }
  }
}
