/**
 Python's ordering of `str` values and `sorted(list(s))` for a set of
 strings: the class-name sets of a record are written out as the unique
 strictly increasing list of their elements.
 */
module StringOrder {

  /** Python's `a < b` on str: lexicographic by code point, where a proper
      prefix comes first. */
  predicate Less(a: string, b: string)
    decreases |a|
  {
    if |a| == 0 then |b| > 0
    else if |b| == 0 then false
    else if a[0] != b[0] then a[0] < b[0]
    else Less(a[1..], b[1..])
  }

  lemma {:induction false} LessIrreflexive(a: string)
    ensures !Less(a, a)
    decreases |a|
  {
    if |a| > 0 {
      LessIrreflexive(a[1..]);
    }
  }

  lemma {:induction false} LessTransitive(a: string, b: string, c: string)
    requires Less(a, b) && Less(b, c)
    ensures Less(a, c)
    decreases |a|
  {
    if |a| > 0 && |b| > 0 && |c| > 0 && a[0] == b[0] && b[0] == c[0] {
      LessTransitive(a[1..], b[1..], c[1..]);
    }
  }

  /** Any two different strings are ordered one way or the other. */
  lemma {:induction false} LessTotal(a: string, b: string)
    requires a != b
    ensures Less(a, b) || Less(b, a)
    decreases |a|
  {
    if |a| > 0 && |b| > 0 && a[0] == b[0] {
      assert a == [a[0]] + a[1..] && b == [b[0]] + b[1..];
      LessTotal(a[1..], b[1..]);
    }
  }

  /** The order Python documents: `a < b` iff, after their longest common
      prefix of length k, either `a` has ended and `b` has not, or both go on
      and `a`'s next code point is the smaller one. */
  lemma {:induction false} LessByCommonPrefix(a: string, b: string, k: nat)
    requires k <= |a| && k <= |b| && a[..k] == b[..k]
    requires k == |a| || k == |b| || a[k] != b[k]
    ensures Less(a, b) <==> (k == |a| && k < |b|) || (k < |a| && k < |b| && a[k] < b[k])
    decreases k
  {
    if k > 0 {
      assert a[0] == a[..k][0] == b[..k][0] == b[0];
      assert a[1..][..k - 1] == a[..k][1..] == b[..k][1..] == b[1..][..k - 1];
      LessByCommonPrefix(a[1..], b[1..], k - 1);
    }
  }

  /** Strictly increasing: sorted and free of duplicates. */
  predicate StrictlySorted(s: seq<string>) {
    forall i, j :: 0 <= i < j < |s| ==> Less(s[i], s[j])
  }

  /** `m` is the least element of `s`. */
  predicate IsLeast(m: string, s: set<string>) {
    m in s && forall y :: y in s && y != m ==> Less(m, y)
  }

  lemma {:induction false} LeastExists(s: set<string>)
    requires s != {}
    ensures exists m :: IsLeast(m, s)
    decreases s
  {
    var x :| x in s;
    var rest := s - {x};
    if rest == {} {
      assert s == {x};
      assert IsLeast(x, s);
    } else {
      LeastExists(rest);
      var m :| IsLeast(m, rest);
      if Less(x, m) {
        forall y | y in s && y != x ensures Less(x, y) {
          if y != m {
            LessTransitive(x, m, y);
          }
        }
        assert IsLeast(x, s);
      } else {
        LessTotal(x, m);
        assert IsLeast(m, s);
      }
    }
  }

  lemma LeastUnique(s: set<string>)
    ensures forall a, b :: IsLeast(a, s) && IsLeast(b, s) ==> a == b
  {
    forall a, b | IsLeast(a, s) && IsLeast(b, s) ensures a == b {
      if a != b {
        LessTransitive(a, b, a);
        LessIrreflexive(a);
      }
    }
  }

  /** `sorted(list(s))`: the elements of `s` in increasing order. */
  function SortedList(s: set<string>): (r: seq<string>)
    ensures StrictlySorted(r)
    ensures forall x :: x in r <==> x in s
    ensures |r| == |s|
    decreases s
  {
    if s == {} then []
    else
      LeastExists(s);
      LeastUnique(s);
      var m :| IsLeast(m, s);
      var rest := SortedList(s - {m});
      assert |s - {m}| == |s| - 1;
      [m] + rest
  }

  /** Two strictly sorted lists with the same elements are equal, so the
      written list depends on the set alone and not on any iteration order. */
  lemma {:induction false} SortedUnique(a: seq<string>, b: seq<string>)
    requires StrictlySorted(a) && StrictlySorted(b)
    requires forall x :: x in a <==> x in b
    ensures a == b
    decreases |a|
  {
    assert |b| > 0 ==> b[0] in b;
    if |a| > 0 {
      assert a[0] in b;
      if a[0] != b[0] {
        assert b[0] in a;
        LessTransitive(a[0], b[0], a[0]);
        LessIrreflexive(a[0]);
      }
      forall x ensures x in a[1..] <==> x in b[1..] {
        if x in a[1..] {
          InTail(a, x);
          InTailAgain(b, x);
        }
        if x in b[1..] {
          InTail(b, x);
          InTailAgain(a, x);
        }
      }
      SortedUnique(a[1..], b[1..]);
      assert a == [a[0]] + a[1..] && b == [b[0]] + b[1..];
    }
  }

  /** An element of the tail of a strictly sorted list is not its head. */
  lemma InTail(s: seq<string>, x: string)
    requires StrictlySorted(s) && |s| > 0 && x in s[1..]
    ensures x in s && x != s[0]
  {
    var i :| 1 <= i < |s| && s[i] == x;
    LessIrreflexive(x);
  }

  lemma InTailAgain(s: seq<string>, x: string)
    requires |s| > 0 && x in s && x != s[0]
    ensures x in s[1..]
  {
  }

  /** A strictly sorted list is exactly `SortedList` of its element set. */
  lemma SortedListOf(s: set<string>, l: seq<string>)
    requires StrictlySorted(l)
    requires forall x :: x in l <==> x in s
    ensures SortedList(s) == l
  {
    SortedUnique(SortedList(s), l);
  }
}
