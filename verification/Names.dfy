/** Chain names and their order: `strcmp` on zero-terminated strings. */
module Names {

  type Name = string

  /** The sign of `strcmp(a, b)`: at the first difference the smaller character wins, and a
      proper prefix comes first. */
  function Compare(a: Name, b: Name): (r: int)
    ensures r == 0 <==> a == b
    ensures b == "" ==> r >= 0
  {
    if a == "" then
      if b == "" then 0 else -1
    else if b == "" then 1
    else if a[0] == b[0] then
      assert a == [a[0]] + a[1..] && b == [b[0]] + b[1..];
      Compare(a[1..], b[1..])
    else
      a[0] as int - b[0] as int
  }

  predicate Less(a: Name, b: Name) {
    Compare(a, b) < 0
  }

  lemma {:induction false} Antisymmetric(a: Name, b: Name)
    ensures Compare(a, b) == -Compare(b, a)
  {
    if a != "" && b != "" && a[0] == b[0] {
      Antisymmetric(a[1..], b[1..]);
    }
  }

  lemma {:induction false} Transitive(a: Name, b: Name, c: Name)
    requires Less(a, b) && Less(b, c)
    ensures Less(a, c)
  {
    if a != "" && a[0] == b[0] && b[0] == c[0] {
      Transitive(a[1..], b[1..], c[1..]);
    }
  }

  /** The order is total: `strcmp` separates any two distinct names, one way only. */
  lemma {:induction false} Trichotomy(a: Name, b: Name)
    ensures a == b || Less(a, b) || Less(b, a)
    ensures !(Less(a, b) && Less(b, a))
    ensures !Less(a, a)
  {
    Antisymmetric(a, b);
  }

  /** Which way the order runs: after a common beginning the smaller character comes first, and a name that goes
      on comes behind the one that ends. */
  lemma {:induction false} OrderRuns(common: Name, c: char, d: char, a: Name, b: Name)
    ensures c < d ==> Less(common + [c] + a, common + [d] + b)
    ensures Less(common, common + [c] + a)
  {
    var x, y := common + [c] + a, common + [d] + b;
    if common != "" {
      OrderRuns(common[1..], c, d, a, b);
      assert x[1..] == common[1..] + [c] + a && y[1..] == common[1..] + [d] + b;
    }
  }

  /** Strictly increasing, hence without repetition. */
  ghost predicate Sorted(ns: seq<Name>) {
    forall i, j :: 0 <= i < j < |ns| ==> Less(ns[i], ns[j])
  }

  /** A name below some element of a sorted list is below all that follow. */
  lemma {:induction false} BelowRest(ns: seq<Name>, name: Name, k: nat)
    requires Sorted(ns) && k < |ns| && Less(name, ns[k])
    ensures forall j :: k <= j < |ns| ==> Less(name, ns[j])
  {
    forall j | k < j < |ns| ensures Less(name, ns[j]) {
      Transitive(name, ns[k], ns[j]);
    }
  }
}
