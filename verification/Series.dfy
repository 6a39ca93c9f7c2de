/**
 A metric series' identity: its name and its tags in sorted key order, joined with NUL
 separators into one map key. Strings compare as Go compares them, character by character.
 */
module Series {

  type Tags = map<string, string>

  const NUL: char := '\0'

  // ---------------------------------------------------------------- string order

  predicate Less(a: string, b: string) {
    |b| > 0 && (|a| == 0 || a[0] < b[0] || (a[0] == b[0] && Less(a[1..], b[1..])))
  }

  lemma {:induction false} LessTotal(a: string, b: string)
    ensures a == b || Less(a, b) || Less(b, a)
    ensures !(Less(a, b) && Less(b, a)) && !Less(a, a)
  {
    if |a| > 0 {
      LessTotal(a[1..], a[1..]);
      if |b| > 0 {
        LessTotal(a[1..], b[1..]);
        if a[0] == b[0] && a[1..] == b[1..] { assert a == [a[0]] + a[1..] && b == [b[0]] + b[1..]; }
      }
    }
  }

  lemma {:induction false} LessTrans(a: string, b: string, c: string)
    requires Less(a, b) && Less(b, c)
    ensures Less(a, c)
  {
    if |a| > 0 && a[0] == b[0] == c[0] { LessTrans(a[1..], b[1..], c[1..]); }
  }

  ghost predicate Ascending(s: seq<string>) {
    forall i, j :: 0 <= i < j < |s| ==> Less(s[i], s[j])
  }

  // ---------------------------------------------------------------- slices.Sorted(maps.Keys(m))

  predicate IsFirst(keys: set<string>, k: string) {
    k in keys && forall x :: x in keys ==> x == k || Less(k, x)
  }

  lemma {:induction false} FirstExists(keys: set<string>)
    requires keys != {}
    ensures exists k :: IsFirst(keys, k)
    ensures forall j, k :: IsFirst(keys, j) && IsFirst(keys, k) ==> j == k
    decreases |keys|
  {
    forall j, k | IsFirst(keys, j) && IsFirst(keys, k) ensures j == k { LessTotal(j, k); }
    var k :| k in keys;
    if keys == {k} {
      assert IsFirst(keys, k);
    } else {
      FirstExists(keys - {k});
      var f :| IsFirst(keys - {k}, f);
      LessTotal(f, k);
      if Less(k, f) {
        forall x | x in keys ensures x == k || Less(k, x) { if x != k && x != f { LessTrans(k, f, x); } }
        assert IsFirst(keys, k);
      } else {
        assert IsFirst(keys, f);
      }
    }
  }

  function SortedKeys(keys: set<string>): (r: seq<string>)
    ensures Ascending(r) && |r| == |keys|
    ensures forall k :: k in r <==> k in keys
    decreases |keys|
  {
    if keys == {} then [] else
    FirstExists(keys);
    var k :| IsFirst(keys, k);
    var rest := SortedKeys(keys - {k});
    assert forall j :: 0 <= j < |rest| ==> rest[j] in rest;
    [k] + rest
  }

  lemma HeadIn(s: seq<string>)
    requires |s| > 0
    ensures s[0] in s
  {
  }

  /** An ascending list is determined by its elements. */
  lemma {:induction false} SortedUnique(s: seq<string>, t: seq<string>)
    requires Ascending(s) && Ascending(t) && forall k :: k in s <==> k in t
    ensures s == t
    decreases |s|
  {
    if |s| == 0 {
      if |t| > 0 { HeadIn(t); }
    } else {
      assert s[0] in s;
      assert |t| > 0 && t[0] in t;
      if s[0] != t[0] {
        var i :| 0 <= i < |t| && t[i] == s[0];
        var j :| 0 <= j < |s| && s[j] == t[0];
        LessTotal(s[0], t[0]);
      }
      forall k ensures k in s[1..] <==> k in t[1..] {
        LessTotal(s[0], s[0]);
        if k in s[1..] {
          assert k in s;
          var i :| 1 <= i < |s| && s[i] == k;
          assert k in t;
          var j :| 0 <= j < |t| && t[j] == k;
        }
        if k in t[1..] {
          assert k in t;
          var i :| 1 <= i < |t| && t[i] == k;
          assert k in s;
          var j :| 0 <= j < |s| && s[j] == k;
        }
      }
      SortedUnique(s[1..], t[1..]);
    }
  }

  // ---------------------------------------------------------------- the key

  /** The name, then each key and its value. */
  function Parts(name: string, tags: Tags): seq<string> {
    [name] + Pairs(tags, SortedKeys(tags.Keys))
  }

  function Pairs(tags: Tags, keys: seq<string>): (r: seq<string>)
    requires forall k :: k in keys ==> k in tags
    ensures |r| == 2 * |keys|
  {
    if |keys| == 0 then [] else
    assert keys[|keys| - 1] in keys;
    Pairs(tags, keys[..|keys| - 1]) + [keys[|keys| - 1], tags[keys[|keys| - 1]]]
  }

  /** The parts with sep between them. */
  function Join(parts: seq<string>, sep: char): string
    requires |parts| > 0
  {
    if |parts| == 1 then parts[0] else parts[0] + [sep] + Join(parts[1..], sep)
  }

  function Key(name: string, tags: Tags): string {
    Join(Parts(name, tags), NUL)
  }

  lemma {:induction false} JoinAppend(parts: seq<string>, sep: char, last: string)
    requires |parts| > 0
    ensures Join(parts + [last], sep) == Join(parts, sep) + [sep] + last
    decreases |parts|
  {
    if |parts| == 1 {
      assert (parts + [last])[1..] == [last];
    } else {
      assert (parts + [last])[1..] == parts[1..] + [last];
      JoinAppend(parts[1..], sep, last);
    }
  }

  method SeriesKey(name: string, tags: Tags) returns (key: string)
    ensures key == Key(name, tags)
  {
    if |tags| == 0 {
      assert tags.Keys == {};
      return name;
    }
    var keys := SortedKeys(tags.Keys);
    key := name;
    for i := 0 to |keys|
      invariant key == KeyPrefix(name, tags, keys[..i])
    {
      KeyStep(name, tags, keys, i);
      key := key + [NUL] + keys[i] + [NUL] + tags[keys[i]];
    }
    assert keys[..|keys|] == keys;
  }

  function KeyPrefix(name: string, tags: Tags, keys: seq<string>): string
    requires forall k :: k in keys ==> k in tags
  {
    Join([name] + Pairs(tags, keys), NUL)
  }

  lemma KeyStep(name: string, tags: Tags, keys: seq<string>, i: nat)
    requires i < |keys| && forall k :: k in keys ==> k in tags
    ensures keys[i] in tags
    ensures KeyPrefix(name, tags, keys[..i + 1])
         == KeyPrefix(name, tags, keys[..i]) + [NUL] + keys[i] + [NUL] + tags[keys[i]]
  {
    assert keys[i] in keys;
    assert keys[..i + 1][..i] == keys[..i];
    var done := [name] + Pairs(tags, keys[..i]);
    assert [name] + Pairs(tags, keys[..i + 1]) == done + [keys[i]] + [tags[keys[i]]];
    JoinAppend(done, NUL, keys[i]);
    JoinAppend(done + [keys[i]], NUL, tags[keys[i]]);
  }

  predicate NulFree(s: string) {
    forall i :: 0 <= i < |s| ==> s[i] != NUL
  }

  ghost predicate AllNulFree(parts: seq<string>) {
    forall i :: 0 <= i < |parts| ==> NulFree(parts[i])
  }

  ghost predicate Clean(name: string, tags: Tags) {
    NulFree(name) && forall k :: k in tags ==> NulFree(k) && NulFree(tags[k])
  }

  // ---------------------------------------------------------------- the key's order is the order of (name, tags)

  /** Lexicographic on lists: a proper prefix comes first. */
  predicate ListLess(p: seq<string>, q: seq<string>) {
    |q| > 0 && (|p| == 0 || Less(p[0], q[0]) || (p[0] == q[0] && ListLess(p[1..], q[1..])))
  }

  /** Two terminated strings, then whatever follows them. */
  lemma {:induction false} LessTerminated(a: string, b: string, x: string, y: string)
    requires NulFree(a) && NulFree(b)
    requires (|x| > 0 ==> x[0] == NUL) && (|y| > 0 ==> y[0] == NUL)
    ensures Less(a + x, b + y) <==> Less(a, b) || (a == b && Less(x, y))
    ensures a + x == b + y <==> a == b && x == y
    decreases |a|
  {
    if |a| > 0 && |b| > 0 {
      assert (a + x)[1..] == a[1..] + x && (b + y)[1..] == b[1..] + y;
      LessTerminated(a[1..], b[1..], x, y);
      assert a == [a[0]] + a[1..] && b == [b[0]] + b[1..];
      assert a + x == [a[0]] + (a[1..] + x) && b + y == [b[0]] + (b[1..] + y);
    } else if |a| == 0 && |b| == 0 {
      assert a + x == x && b + y == y;
    } else if |a| == 0 {
      assert a + x == x;
      assert (b + y)[0] == b[0] > NUL;
    } else {
      assert b + y == y;
      assert (a + x)[0] == a[0] > NUL;
    }
  }

  lemma {:induction false} JoinOrder(p: seq<string>, q: seq<string>)
    requires |p| > 0 && |q| > 0 && AllNulFree(p) && AllNulFree(q)
    ensures Less(Join(p, NUL), Join(q, NUL)) <==> ListLess(p, q)
    ensures Join(p, NUL) == Join(q, NUL) <==> p == q
    decreases |p|
  {
    var x, y := Tail(p), Tail(q);
    LessTerminated(p[0], q[0], x, y);
    assert Join(p, NUL) == p[0] + x && Join(q, NUL) == q[0] + y;
    assert p == [p[0]] + p[1..] && q == [q[0]] + q[1..];
    if |p| > 1 && |q| > 1 {
      JoinOrder(p[1..], q[1..]);
      assert x[1..] == Join(p[1..], NUL) && y[1..] == Join(q[1..], NUL);
    }
  }

  /** What follows the first part. */
  function Tail(p: seq<string>): string
    requires |p| > 0
  {
    if |p| == 1 then [] else [NUL] + Join(p[1..], NUL)
  }

  lemma {:induction false} PairsClean(tags: Tags, keys: seq<string>)
    requires (forall k :: k in keys ==> k in tags) && forall k :: k in tags ==> NulFree(k) && NulFree(tags[k])
    ensures AllNulFree(Pairs(tags, keys))
  {
    if |keys| > 0 {
      assert keys[|keys| - 1] in keys;
      PairsClean(tags, keys[..|keys| - 1]);
    }
  }

  lemma PartsClean(name: string, tags: Tags)
    requires Clean(name, tags)
    ensures AllNulFree(Parts(name, tags))
  {
    PairsClean(tags, SortedKeys(tags.Keys));
  }

  lemma {:induction false} PairsInjective(t: Tags, keys: seq<string>, t': Tags, keys': seq<string>)
    requires (forall k :: k in keys ==> k in t) && (forall k :: k in keys' ==> k in t')
    requires Pairs(t, keys) == Pairs(t', keys')
    ensures keys == keys' && forall k :: k in keys ==> k in t' && t[k] == t'[k]
    decreases |keys|
  {
    assert |keys| == |keys'|;
    if |keys| > 0 {
      var n := |keys| - 1;
      var p, p' := Pairs(t, keys), Pairs(t', keys');
      assert keys[n] in keys && keys'[n] in keys';
      assert p[..2 * n] == Pairs(t, keys[..n]) && p'[..2 * n] == Pairs(t', keys'[..n]);
      assert p[2 * n] == keys[n] && p'[2 * n] == keys'[n];
      assert p[2 * n + 1] == t[keys[n]] && p'[2 * n + 1] == t'[keys'[n]];
      PairsInjective(t, keys[..n], t', keys'[..n]);
      assert keys == keys[..n] + [keys[n]] && keys' == keys'[..n] + [keys'[n]];
    }
  }

  lemma PartsInjective(n: string, t: Tags, n': string, t': Tags)
    requires Parts(n, t) == Parts(n', t')
    ensures n == n' && t == t'
  {
    var keys, keys' := SortedKeys(t.Keys), SortedKeys(t'.Keys);
    assert Pairs(t, keys) == Parts(n, t)[1..] == Parts(n', t')[1..] == Pairs(t', keys');
    assert n == Parts(n, t)[0] == Parts(n', t')[0] == n';
    PairsInjective(t, keys, t', keys');
    assert t.Keys == t'.Keys;
  }

  /** For NUL-free names, tag keys and values the key is injective, and comparing keys is comparing the
      name and then the sorted tags. */
  lemma KeyOrder(n: string, t: Tags, n': string, t': Tags)
    requires Clean(n, t) && Clean(n', t')
    ensures Key(n, t) == Key(n', t') <==> n == n' && t == t'
    ensures Less(Key(n, t), Key(n', t')) <==> ListLess(Parts(n, t), Parts(n', t'))
    ensures Less(Key(n, t), Key(n', t')) ==> n == n' || Less(n, n')
  {
    PartsClean(n, t);
    PartsClean(n', t');
    JoinOrder(Parts(n, t), Parts(n', t'));
    if Parts(n, t) == Parts(n', t') { PartsInjective(n, t, n', t'); }
  }

  // ---------------------------------------------------------------- which keys are unambiguous

  function NulCount(s: string): nat {
    if |s| == 0 then 0 else NulCount(s[..|s| - 1]) + (if s[|s| - 1] == NUL then 1 else 0)
  }

  lemma {:induction false} NulCountAppend(s: string, t: string)
    ensures NulCount(s + t) == NulCount(s) + NulCount(t)
    decreases |t|
  {
    if |t| == 0 {
      assert s + t == s;
    } else {
      assert (s + t)[..|s + t| - 1] == s + t[..|t| - 1];
      NulCountAppend(s, t[..|t| - 1]);
    }
  }

  lemma {:induction false} SplitAtNul(s: string) returns (a: string, b: string)
    requires NulCount(s) >= 1
    ensures s == a + [NUL] + b && NulCount(a) == NulCount(s) - 1 && NulFree(b)
    decreases |s|
  {
    var n := |s| - 1;
    if s[n] == NUL {
      a, b := s[..n], [];
    } else {
      a, b := SplitAtNul(s[..n]);
      b := b + [s[n]];
    }
  }

  lemma TaggedKeyNuls(name: string, tags: Tags)
    requires |tags| > 0
    ensures NulCount(Key(name, tags)) >= 2
  {
    var keys := SortedKeys(tags.Keys);
    var n := |keys| - 1;
    KeyStep(name, tags, keys, n);
    assert keys[..n + 1] == keys;
    var prefix := KeyPrefix(name, tags, keys[..n]);
    NulCountAppend(prefix + [NUL] + keys[n] + [NUL], tags[keys[n]]);
    NulCountAppend(prefix + [NUL] + keys[n], [NUL]);
    NulCountAppend(prefix + [NUL], keys[n]);
    NulCountAppend(prefix, [NUL]);
    assert NulCount([NUL]) == 1 by { assert [NUL][..0] == []; }
  }

  lemma UntaggedKey(name: string)
    ensures Key(name, map[]) == name
  {
  }

  lemma OneTagKey(name: string, k: string, v: string)
    ensures Key(name, map[k := v]) == name + [NUL] + k + [NUL] + v
  {
    var tags: Tags := map[k := v];
    var keys := SortedKeys(tags.Keys);
    assert k in tags.Keys && |tags.Keys| == 1 by { assert tags.Keys == {k}; }
    assert keys == [k];
    KeyStep(name, tags, keys, 0);
    assert keys[..1] == keys && KeyPrefix(name, tags, keys[..0]) == name;
  }

  /** The separators do not keep every two series apart. A series is the only one with its key exactly when
      it is untagged and its name holds fewer than two NULs; among NUL-free series none collide (KeyOrder). */
  lemma KeyUniqueIff(name: string, tags: Tags)
    ensures (forall n, t :: Key(n, t) == Key(name, tags) ==> n == name && t == tags)
       <==> |tags| == 0 && NulCount(name) < 2
  {
    UntaggedKey(Key(name, tags));
    if |tags| == 0 {
      assert tags == map[];
      UntaggedKey(name);
      if NulCount(name) < 2 {
        forall n, t | Key(n, t) == Key(name, tags) ensures n == name && t == tags {
          if |t| > 0 { TaggedKeyNuls(n, t); }
          assert t == map[];
          UntaggedKey(n);
        }
      } else {
        var rest, v := SplitAtNul(name);
        var n, k := SplitAtNul(rest);
        OneTagKey(n, k, v);
        assert k in map[k := v];
      }
    }
  }
}
