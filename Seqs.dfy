/**
 * Sequence helpers: the parts of the collection library (`without`, `uniq`,
 * `flatten`) that the modelled code relies on, with the facts it needs.
 */
module Seqs {

  /** No element occurs twice. */
  predicate NoDup<T(==)>(s: seq<T>)
  {
    forall i, j :: 0 <= i < j < |s| ==> s[i] != s[j]
  }

  /** `s` with `x` dropped and the other elements kept in order. */
  function Without<T(==)>(s: seq<T>, x: T): (r: seq<T>)
    ensures forall y <- r :: y in s && y != x
    ensures forall y <- s :: y != x ==> y in r
    ensures x !in s ==> r == s
    ensures NoDup(s) ==> NoDup(r)
  {
    if s == [] then []
    else
      var rest := Without(s[1..], x);
      assert NoDup(s) ==> NoDup(s[1..]) && s[0] !in s[1..];
      if s[0] == x then rest else [s[0]] + rest
  }

  /** Dropping an element from a concatenation drops it from each part. */
  lemma {:induction false} WithoutConcat<T>(s: seq<T>, t: seq<T>, x: T)
    ensures Without(s + t, x) == Without(s, x) + Without(t, x)
  {
    if s == [] {
      assert s + t == t;
    } else {
      var st := s + t;
      assert st[0] == s[0] && st[1..] == s[1..] + t;
      WithoutConcat(s[1..], t, x);
      if s[0] == x {
        calc {
          Without(st, x);
          Without(s[1..] + t, x);
          Without(s[1..], x) + Without(t, x);
        }
      } else {
        calc {
          Without(st, x);
          [s[0]] + Without(s[1..] + t, x);
          [s[0]] + (Without(s[1..], x) + Without(t, x));
          ([s[0]] + Without(s[1..], x)) + Without(t, x);
        }
      }
    }
  }

  /** Index of the first occurrence of `x` in `s`. */
  function FirstIndex<T(==)>(s: seq<T>, x: T): (k: nat)
    requires x in s
    ensures k < |s| && s[k] == x
    ensures forall j :: 0 <= j < k ==> s[j] != x
  {
    if s[0] == x then 0 else FirstIndex(s[1..], x) + 1
  }

  /**
   * Dropping an element held once cuts it out where it stands: the elements
   * before and after it stay, in order.
   */
  lemma {:induction false} WithoutCutsOut<T>(s: seq<T>, x: T)
    requires NoDup(s) && x in s
    ensures Without(s, x) == s[..FirstIndex(s, x)] + s[FirstIndex(s, x) + 1..]
  {
    if s[0] == x {
      assert x !in s[1..];
      assert s[..0] == [];
    } else {
      var k := FirstIndex(s[1..], x);
      assert NoDup(s[1..]);
      WithoutCutsOut(s[1..], x);
      assert s[1..][..k] + s[1..][k + 1..] == s[1..k + 1] + s[k + 2..];
      assert s[..k + 1] == [s[0]] + s[1..k + 1];
    }
  }

  /** Underscore's `uniq`: every distinct element once, at its first occurrence. */
  function Uniq<T(==)>(s: seq<T>): (r: seq<T>)
    ensures NoDup(r)
    ensures forall x <- r :: x in s
    ensures forall x <- s :: x in r
  {
    if s == [] then []
    else
      var prefix := Uniq(s[..|s| - 1]);
      assert s == s[..|s| - 1] + [s[|s| - 1]];
      if s[|s| - 1] in prefix then prefix else prefix + [s[|s| - 1]]
  }

  /** Extending a sequence does not move the first occurrence of an element it already held. */
  lemma FirstIndexOfPrefix<T>(s: seq<T>, n: nat, x: T)
    requires n <= |s| && x in s[..n]
    ensures FirstIndex(s, x) == FirstIndex(s[..n], x)
  {
    var k := FirstIndex(s, x);
    var m := FirstIndex(s[..n], x);
    assert s[m] == x by {
      assert s[..n][m] == s[m];
    }
    assert k < n by {
      var j :| 0 <= j < n && s[..n][j] == x;
      assert s[j] == x;
    }
    assert s[..n][k] == x;
  }

  /**
   * `Uniq` keeps first-occurrence order: its elements appear in the order in
   * which each is first met in `s`.
   */
  lemma {:induction false} UniqOrder<T>(s: seq<T>)
    ensures forall i, j :: 0 <= i < j < |Uniq(s)| ==>
      FirstIndex(s, Uniq(s)[i]) < FirstIndex(s, Uniq(s)[j])
  {
    if s != [] {
      var init := s[..|s| - 1];
      var last := s[|s| - 1];
      var prefix := Uniq(init);
      UniqOrder(init);
      forall y | y in prefix
        ensures FirstIndex(s, y) == FirstIndex(init, y) < |init|
      {
        FirstIndexOfPrefix(s, |init|, y);
      }
      if last !in prefix {
        assert last !in init;
        assert FirstIndex(s, last) == |init| by {
          assert s[|init|] == last;
        }
      }
    }
  }

  /** Underscore's `flatten` (one level): the concatenation of `ss`. */
  function Flatten<T>(ss: seq<seq<T>>): (r: seq<T>)
    ensures forall x <- r :: exists i :: 0 <= i < |ss| && x in ss[i]
    ensures forall i, x :: 0 <= i < |ss| && x in ss[i] ==> x in r
  {
    if ss == [] then []
    else
      var rest := Flatten(ss[1..]);
      assert forall i, x :: 1 <= i < |ss| && x in ss[i] ==> x in rest by {
        forall i, x | 1 <= i < |ss| && x in ss[i] ensures x in rest {
          assert ss[i] == ss[1..][i - 1];
        }
      }
      assert forall x <- rest :: exists i :: 0 <= i < |ss| && x in ss[i] by {
        forall x <- rest ensures exists i :: 0 <= i < |ss| && x in ss[i] {
          var i :| 0 <= i < |ss[1..]| && x in ss[1..][i];
          assert x in ss[i + 1];
        }
      }
      ss[0] + rest
  }
}
