/**
 * The order in which the style parser walks its layer table: a std::map keyed
 * by layer id iterates its keys in ascending std::string order, that is,
 * lexicographically by character.
 */
module KeyOrder {

  /** std::string's operator<: lexicographic order on characters. */
  predicate StrLess(a: string, b: string) {
    if |a| == 0 then |b| > 0
    else if |b| == 0 then false
    else a[0] < b[0] || (a[0] == b[0] && StrLess(a[1..], b[1..]))
  }

  lemma {:induction false} StrLessIrreflexive(a: string)
    ensures !StrLess(a, a)
    decreases |a|
  {
    if |a| > 0 {
      StrLessIrreflexive(a[1..]);
    }
  }

  lemma {:induction false} StrLessTransitive(a: string, b: string, d: string)
    requires StrLess(a, b) && StrLess(b, d)
    ensures StrLess(a, d)
    decreases |a|
  {
    if |a| > 0 && |b| > 0 && |d| > 0 && a[0] == b[0] && b[0] == d[0] {
      StrLessTransitive(a[1..], b[1..], d[1..]);
    }
  }

  lemma {:induction false} StrLessTotal(a: string, b: string)
    requires a != b
    ensures StrLess(a, b) || StrLess(b, a)
    decreases |a|
  {
    if |a| > 0 && |b| > 0 && a[0] == b[0] {
      assert a == [a[0]] + a[1..] && b == [b[0]] + b[1..];
      StrLessTotal(a[1..], b[1..]);
    }
  }

  /** `x` comes before every other key of `keys`. */
  predicate IsLeast(x: string, keys: set<string>) {
    x in keys && forall y :: y in keys && y != x ==> StrLess(x, y)
  }

  /** Every non-empty key set has a first key. */
  lemma {:induction false} LeastExists(keys: set<string>)
    requires keys != {}
    ensures exists x :: IsLeast(x, keys)
    decreases |keys|
  {
    var y :| y in keys;
    var rest := keys - {y};
    if rest == {} {
      assert keys == {y};
      assert IsLeast(y, keys);
    } else {
      LeastExists(rest);
      var m :| IsLeast(m, rest);
      if StrLess(m, y) {
        assert IsLeast(m, keys);
      } else {
        StrLessTotal(m, y);
        forall z | z in keys && z != y
          ensures StrLess(y, z)
        {
          if z != m {
            StrLessTransitive(y, m, z);
          }
        }
        assert IsLeast(y, keys);
      }
    }
  }

  /** ... and only one. */
  lemma LeastUnique(keys: set<string>)
    ensures forall x, y :: IsLeast(x, keys) && IsLeast(y, keys) ==> x == y
  {
    forall x, y | IsLeast(x, keys) && IsLeast(y, keys)
      ensures x == y
    {
      if x != y {
        StrLessTransitive(x, y, x);
        StrLessIrreflexive(x);
      }
    }
  }

  /** The first key of a non-empty key set. */
  function LeastKey(keys: set<string>): (x: string)
    requires keys != {}
    ensures IsLeast(x, keys)
  {
    LeastExists(keys);
    LeastUnique(keys);
    var x :| IsLeast(x, keys);
    x
  }

  /** The keys in iteration order: the first key, then the rest in iteration order. */
  function SortedKeys(keys: set<string>): seq<string>
    decreases |keys|
  {
    if keys == {} then [] else
      var x := LeastKey(keys);
      [x] + SortedKeys(keys - {x})
  }

  /** The iteration visits every key, and nothing else. */
  lemma {:induction false} SortedKeysComplete(keys: set<string>)
    ensures forall k :: k in SortedKeys(keys) <==> k in keys
    decreases |keys|
  {
    if keys != {} {
      SortedKeysComplete(keys - {LeastKey(keys)});
    }
  }

  /** The iteration visits the keys in ascending order, so each of them exactly once. */
  lemma {:induction false} SortedKeysAscending(keys: set<string>)
    ensures forall i, j :: 0 <= i < j < |SortedKeys(keys)| ==> StrLess(SortedKeys(keys)[i], SortedKeys(keys)[j])
    ensures |SortedKeys(keys)| == |keys|
    decreases |keys|
  {
    if keys != {} {
      var x := LeastKey(keys);
      var rest := SortedKeys(keys - {x});
      SortedKeysAscending(keys - {x});
      SortedKeysComplete(keys - {x});
      assert SortedKeys(keys) == [x] + rest;
      forall i, j | 0 <= i < j < |SortedKeys(keys)|
        ensures StrLess(SortedKeys(keys)[i], SortedKeys(keys)[j])
      {
        if i > 0 {
          assert SortedKeys(keys)[i] == rest[i - 1] && SortedKeys(keys)[j] == rest[j - 1];
        } else {
          assert SortedKeys(keys)[j] == rest[j - 1] && rest[j - 1] in keys - {x};
        }
      }
    }
  }
}
