/** Edits of sequences, and counting over them. */
module Seqs {

  datatype Option<+T> = None | Some(value: T)

  function InsertAt<T>(s: seq<T>, n: nat, x: T): (r: seq<T>)
    requires n <= |s|
  {
    s[..n] + [x] + s[n..]
  }

  function RemoveAt<T>(s: seq<T>, n: nat): (r: seq<T>)
    requires n < |s|
  {
    s[..n] + s[n + 1..]
  }

  /** What is put in comes out again, and the rest is back in place. */
  lemma {:induction false} RemoveUndoesInsert<T>(s: seq<T>, n: nat, x: T)
    requires n <= |s|
    ensures InsertAt(s, n, x)[n] == x && RemoveAt(InsertAt(s, n, x), n) == s
  {
  }

  function Map<A, B>(s: seq<A>, f: A -> B): (r: seq<B>) {
    seq(|s|, i requires 0 <= i < |s| => f(s[i]))
  }

  lemma {:induction false} MapInsert<A, B>(s: seq<A>, n: nat, x: A, f: A -> B)
    requires n <= |s|
    ensures Map(InsertAt(s, n, x), f) == InsertAt(Map(s, f), n, f(x))
  {
  }

  lemma {:induction false} MapRemove<A, B>(s: seq<A>, n: nat, f: A -> B)
    requires n < |s|
    ensures Map(RemoveAt(s, n), f) == RemoveAt(Map(s, f), n)
  {
  }

  lemma {:induction false} MapUpdate<A, B>(s: seq<A>, n: nat, x: A, f: A -> B)
    requires n < |s|
    ensures Map(s[n := x], f) == Map(s, f)[n := f(x)]
  {
  }

  /** The sum of `f` over a sequence. */
  function Total<T>(s: seq<T>, f: T -> nat): nat {
    if s == [] then 0 else Total(s[..|s| - 1], f) + f(s[|s| - 1])
  }

  lemma {:induction false} TotalConcat<T>(a: seq<T>, b: seq<T>, f: T -> nat)
    ensures Total(a + b, f) == Total(a, f) + Total(b, f)
  {
    if b == [] {
      assert a + b == a;
    } else {
      TotalConcat(a, b[..|b| - 1], f);
      assert (a + b)[..|a + b| - 1] == a + b[..|b| - 1];
    }
  }

  lemma {:induction false} TotalInsert<T>(s: seq<T>, n: nat, x: T, f: T -> nat)
    requires n <= |s|
    ensures Total(InsertAt(s, n, x), f) == Total(s, f) + f(x)
  {
    TotalConcat(s[..n] + [x], s[n..], f);
    TotalConcat(s[..n], s[n..], f);
    assert s[..n] + s[n..] == s;
    assert (s[..n] + [x])[..n] == s[..n];
  }

  lemma {:induction false} TotalRemove<T>(s: seq<T>, n: nat, f: T -> nat)
    requires n < |s|
    ensures Total(RemoveAt(s, n), f) == Total(s, f) - f(s[n])
  {
    var t, x := RemoveAt(s, n), s[n];
    assert InsertAt(t, n, x) == s;
    TotalInsert(t, n, x, f);
  }

  lemma {:induction false} TotalUpdate<T>(s: seq<T>, n: nat, x: T, f: T -> nat)
    requires n < |s|
    ensures Total(s[n := x], f) == Total(s, f) - f(s[n]) + f(x)
  {
    var t := RemoveAt(s, n);
    assert InsertAt(t, n, x) == s[n := x];
    TotalRemove(s, n, f);
    TotalInsert(t, n, x, f);
  }

  /** Every summand is within the total, and two different ones are so together. */
  lemma {:induction false} TotalBounds<T>(s: seq<T>, i: nat, j: nat, f: T -> nat)
    requires i < |s| && j < |s|
    ensures f(s[i]) <= Total(s, f)
    ensures i != j ==> f(s[i]) + f(s[j]) <= Total(s, f)
  {
    TotalRemove(s, i, f);
    if i != j {
      var j' := if j < i then j else j - 1;
      TotalRemove(RemoveAt(s, i), j', f);
    }
  }

  lemma {:induction false} TotalZero<T>(s: seq<T>, f: T -> nat)
    requires forall i :: 0 <= i < |s| ==> f(s[i]) == 0
    ensures Total(s, f) == 0
  {
    if s != [] { TotalZero(s[..|s| - 1], f); }
  }

  lemma {:induction false} TotalSame<S, T>(s: seq<S>, t: seq<T>, f: S -> nat, g: T -> nat)
    requires |s| == |t| && forall i :: 0 <= i < |s| ==> f(s[i]) == g(t[i])
    ensures Total(s, f) == Total(t, g)
  {
    if s != [] { TotalSame(s[..|s| - 1], t[..|t| - 1], f, g); }
  }
}
