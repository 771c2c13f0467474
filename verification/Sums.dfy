/** Sums over sequences and over finite sets, and the law that connects them: a sum splits into its buckets. */
module Sums {
  function SumSeq<T>(s: seq<T>, f: T -> int): int {
    if s == [] then 0 else SumSeq(s[..|s| - 1], f) + f(s[|s| - 1])
  }

  lemma SumSeqAppend<T>(s: seq<T>, x: T, f: T -> int)
    ensures SumSeq(s + [x], f) == SumSeq(s, f) + f(x)
  {
    assert (s + [x])[..|s|] == s;
  }

  lemma {:induction false} SumSeqZero<T>(s: seq<T>, f: T -> int)
    requires forall x :: x in s ==> f(x) == 0
    ensures SumSeq(s, f) == 0
  {
    if s != [] {
      SumSeqZero(s[..|s| - 1], f);
    }
  }

  ghost function SumSet<T>(s: set<T>, f: T -> int): int {
    if s == {} then 0
    else
      var x :| x in s;
      f(x) + SumSet(s - {x}, f)
  }

  /** Any element can be taken out first. */
  lemma {:induction false} TakeOut<T>(s: set<T>, f: T -> int, x: T)
    requires x in s
    ensures SumSet(s, f) == f(x) + SumSet(s - {x}, f)
  {
    var y :| y in s && SumSet(s, f) == f(y) + SumSet(s - {y}, f);
    if y != x {
      TakeOut(s - {y}, f, x);
      TakeOut(s - {x}, f, y);
      assert s - {y} - {x} == s - {x} - {y};
    }
  }

  lemma {:induction false} SameOn<T>(s: set<T>, f: T -> int, g: T -> int)
    requires forall x :: x in s ==> f(x) == g(x)
    ensures SumSet(s, f) == SumSet(s, g)
  {
    if s != {} {
      var x :| x in s;
      TakeOut(s, f, x);
      TakeOut(s, g, x);
      SameOn(s - {x}, f, g);
    }
  }

  /** Changing the summand at one element changes the sum by as much. */
  lemma ChangeOne<T>(s: set<T>, f: T -> int, g: T -> int, x: T)
    requires x in s && forall y :: y in s && y != x ==> f(y) == g(y)
    ensures SumSet(s, g) == SumSet(s, f) + g(x) - f(x)
  {
    TakeOut(s, f, x);
    TakeOut(s, g, x);
    SameOn(s - {x}, f, g);
  }

  /** Elements that contribute nothing can be left out. */
  lemma {:induction false} DropZeros<T>(s: set<T>, t: set<T>, f: T -> int)
    requires t <= s && forall x :: x in s && x !in t ==> f(x) == 0
    ensures SumSet(s, f) == SumSet(t, f)
    decreases s
  {
    if x :| x in s && x !in t {
      TakeOut(s, f, x);
      DropZeros(s - {x}, t, f);
    } else {
      assert s == t;
    }
  }

  lemma {:induction false} SumSetZero<T>(s: set<T>, f: T -> int)
    requires forall x :: x in s ==> f(x) == 0
    ensures SumSet(s, f) == 0
  {
    if s != {} {
      var x :| x in s;
      TakeOut(s, f, x);
      SumSetZero(s - {x}, f);
    }
  }

  /** A sum of nonnegative terms is at least each of them. */
  lemma {:induction false} AtLeastEach<T>(s: set<T>, f: T -> int, x: T)
    requires x in s && forall y :: y in s ==> f(y) >= 0
    ensures SumSet(s, f) >= f(x)
  {
    TakeOut(s, f, x);
    NonNegative(s - {x}, f);
  }

  lemma {:induction false} NonNegative<T>(s: set<T>, f: T -> int)
    requires forall x :: x in s ==> f(x) >= 0
    ensures SumSet(s, f) >= 0
  {
    if s != {} {
      var x :| x in s;
      TakeOut(s, f, x);
      NonNegative(s - {x}, f);
    }
  }

  /** Adding one at every element of `t` adds its size. */
  lemma {:induction false} AddOnes<T>(s: set<T>, t: set<T>, f: T -> int, g: T -> int)
    requires t <= s && forall x :: x in s ==> g(x) == f(x) + if x in t then 1 else 0
    ensures SumSet(s, g) == SumSet(s, f) + |t|
  {
    if t == {} {
      SameOn(s, f, g);
    } else {
      var x :| x in t;
      TakeOut(s, f, x);
      TakeOut(s, g, x);
      AddOnes(s - {x}, t - {x}, f, g);
    }
  }
}
