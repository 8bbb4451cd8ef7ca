/**
 * Python's ordering of `str` values (lexicographic by code point, a proper
 * prefix first) and `sorted()` applied to the keys of a dictionary.
 */
module KeyOrder {

  /** `a < b` on Python strings. */
  predicate Less(a: string, b: string)
    decreases |a|
  {
    b != [] && (a == [] || a[0] < b[0] || (a[0] == b[0] && Less(a[1..], b[1..])))
  }

  lemma {:induction false} LessIrreflexive(a: string)
    ensures !Less(a, a)
    decreases |a|
  {
    if a != [] {
      LessIrreflexive(a[1..]);
    }
  }

  lemma {:induction false} LessTransitive(a: string, b: string, c: string)
    requires Less(a, b) && Less(b, c)
    ensures Less(a, c)
    decreases |a|
  {
    if a != [] && a[0] == b[0] && b[0] == c[0] {
      LessTransitive(a[1..], b[1..], c[1..]);
    }
  }

  lemma {:induction false} LessTotal(a: string, b: string)
    requires a != b
    ensures Less(a, b) || Less(b, a)
    decreases |a|
  {
    if a != [] && b != [] && a[0] == b[0] {
      assert a[1..] != b[1..] by {
        assert a == [a[0]] + a[1..] && b == [b[0]] + b[1..];
      }
      LessTotal(a[1..], b[1..]);
    }
  }

  lemma LessAsymmetric(a: string, b: string)
    requires Less(a, b)
    ensures !Less(b, a)
  {
    if Less(b, a) {
      LessTransitive(a, b, a);
      LessIrreflexive(a);
    }
  }

  lemma LessAsymmetricAll()
    ensures forall a, b :: Less(a, b) ==> !Less(b, a)
  {
    forall a, b | Less(a, b) ensures !Less(b, a) {
      LessAsymmetric(a, b);
    }
  }

  /** `m` is the smallest element of `s`. */
  predicate IsLeast(m: string, s: set<string>)
  {
    m in s && forall x :: x in s && x != m ==> Less(m, x)
  }

  lemma {:induction false} LeastExists(s: set<string>)
    requires s != {}
    ensures exists m :: IsLeast(m, s)
    decreases |s|
  {
    var x :| x in s;
    if s != {x} {
      var rest := s - {x};
      LeastExists(rest);
      var m :| IsLeast(m, rest);
      if Less(x, m) {
        forall y | y in s && y != x ensures Less(x, y) {
          if y != m { LessTransitive(x, m, y); }
        }
        assert IsLeast(x, s);
      } else {
        LessTotal(x, m);
        forall y | y in s && y != m ensures Less(m, y) {
          if y != x { assert y in rest; }
        }
        assert IsLeast(m, s);
      }
    } else {
      assert IsLeast(x, s);
    }
  }

  /** Every element precedes every later element. */
  predicate StrictlySorted(s: seq<string>)
  {
    forall i, j :: 0 <= i < j < |s| ==> Less(s[i], s[j])
  }

  /** `sorted(keys)`: the keys in ascending order, each exactly once. */
  function SortedKeys(keys: set<string>): (r: seq<string>)
    ensures StrictlySorted(r) && |r| == |keys|
    ensures forall x :: x in r <==> x in keys
    decreases |keys|
  {
    if keys == {} then []
    else
      LeastExists(keys);
      LessAsymmetricAll();
      var m :| IsLeast(m, keys);
      var rest := SortedKeys(keys - {m});
      PrependLeast(m, keys, rest);
      [m] + rest
  }

  lemma PrependLeast(m: string, keys: set<string>, rest: seq<string>)
    requires IsLeast(m, keys) && StrictlySorted(rest) && |rest| == |keys - {m}|
    requires forall x :: x in rest <==> x in keys - {m}
    ensures StrictlySorted([m] + rest) && |[m] + rest| == |keys|
    ensures forall x :: x in [m] + rest <==> x in keys
  {
    var r := [m] + rest;
    forall i, j | 0 <= i < j < |r| ensures Less(r[i], r[j]) {
      if i == 0 {
        assert r[j] == rest[j - 1] && rest[j - 1] in keys - {m};
      } else {
        assert r[i] == rest[i - 1] && r[j] == rest[j - 1];
      }
    }
  }

  /** In an ascending listing, the first element precedes every other one. */
  lemma FirstIsSmallest(s: seq<string>, x: string)
    requires StrictlySorted(s) && x in s && x != s[0]
    ensures Less(s[0], x) && x in s[1..]
  {
    var i :| 0 <= i < |s| && s[i] == x;
    assert s[1..][i - 1] == x;
  }

  /** There is only one ascending listing of a set of keys. */
  lemma {:induction false} SortedUnique(a: seq<string>, b: seq<string>)
    requires StrictlySorted(a) && StrictlySorted(b)
    requires forall x :: x in a <==> x in b
    ensures a == b
    decreases |a|
  {
    if b != [] {
      assert b[0] in a;
    }
    if a != [] {
      assert a[0] in b;
      assert b[0] in a;
      if a[0] != b[0] {
        FirstIsSmallest(b, a[0]);
        FirstIsSmallest(a, b[0]);
        LessAsymmetric(a[0], b[0]);
      }
      forall x ensures x in a[1..] <==> x in b[1..] {
        if x in a[1..] {
          LessIrreflexive(x);
          assert x != a[0] && x in b;
          FirstIsSmallest(b, x);
        }
        if x in b[1..] {
          LessIrreflexive(x);
          assert x != b[0] && x in a;
          FirstIsSmallest(a, x);
        }
      }
      SortedUnique(a[1..], b[1..]);
      assert a == [a[0]] + a[1..] && b == [b[0]] + b[1..];
    }
  }

  /** The elements of `ks` other than `x`, in their order. */
  function Without(ks: seq<string>, x: string): (r: seq<string>)
    ensures forall y :: y in r <==> y in ks && y != x
  {
    if ks == [] then []
    else Without(ks[..|ks| - 1], x) + (if ks[|ks| - 1] == x then [] else [ks[|ks| - 1]])
  }

  lemma WithoutSnoc(ks: seq<string>, i: nat, x: string)
    requires i < |ks|
    ensures Without(ks[..i + 1], x) == Without(ks[..i], x) + (if ks[i] == x then [] else [ks[i]])
  {
    assert ks[..i + 1][..i] == ks[..i];
  }

  lemma {:induction false} WithoutKeepsOrder(ks: seq<string>, x: string)
    requires StrictlySorted(ks)
    ensures StrictlySorted(Without(ks, x))
    decreases |ks|
  {
    if ks != [] {
      var init := ks[..|ks| - 1];
      WithoutKeepsOrder(init, x);
      var w := Without(init, x);
      forall i | 0 <= i < |w| ensures Less(w[i], ks[|ks| - 1]) {
        assert w[i] in init;
      }
    }
  }

  /** Listing a set in order and dropping one key lists the smaller set in order. */
  lemma SortedWithout(keys: set<string>, x: string)
    ensures Without(SortedKeys(keys), x) == SortedKeys(keys - {x})
  {
    WithoutKeepsOrder(SortedKeys(keys), x);
    SortedUnique(Without(SortedKeys(keys), x), SortedKeys(keys - {x}));
  }
}
