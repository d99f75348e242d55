/** The rules of a chain as they are kept in memory: a circular doubly linked list through a head that is not
    itself a rule.  `Rulesets` works on sequences; here the linked list is shown to act as one. */
module LinkedRules {
  import opened Seqs

  class Link<T> {
    var next: Link?<T>
    var prev: Link?<T>
    /** Missing in the head of a list. */
    const item: Option<T>

    /** A link on its own points to itself. */
    constructor (item: Option<T>)
      ensures this.item == item && next == this && prev == this
    {
      this.item := item;
      next, prev := this, this;
    }
  }

  /** The links behind and in front of place `i`, around the ring. */
  function After<T>(ring: seq<Link<T>>, i: nat): Link<T>
    requires i < |ring|
  {
    if i + 1 < |ring| then ring[i + 1] else ring[0]
  }

  function Before<T>(ring: seq<Link<T>>, i: nat): Link<T>
    requires i < |ring|
  {
    if i > 0 then ring[i - 1] else ring[|ring| - 1]
  }

  ghost predicate Distinct<T>(ring: seq<Link<T>>) {
    forall i, j :: 0 <= i < j < |ring| ==> ring[i] != ring[j]
  }

  /** The links of `ring` are linked in this order, and in no other. */
  ghost predicate IsRing<T>(ring: seq<Link<T>>)
    reads ring
  {
    && |ring| > 0 && Distinct(ring)
    && forall i {:trigger ring[i]} :: 0 <= i < |ring| ==>
         ring[i].next == After(ring, i) && ring[i].prev == Before(ring, i)
  }

  lemma {:induction false} Neighbours<T>(ring: seq<Link<T>>, i: nat)
    requires IsRing(ring) && i < |ring|
    ensures ring[i].prev == Before(ring, i) && ring[i].next == After(ring, i)
    ensures Before(ring, i) in ring && After(ring, i) in ring
  {
  }

  /** The first link occurs nowhere else. */
  lemma {:induction false} OnlyHead<T>(ring: seq<Link<T>>)
    requires IsRing(ring)
    ensures forall j :: 0 < j < |ring| ==> ring[j] != ring[0]
  {
  }

  lemma {:induction false} DistinctInsert<T>(ring: seq<Link<T>>, n: nat, x: Link<T>)
    requires Distinct(ring) && n <= |ring| && x !in ring
    ensures Distinct(InsertAt(ring, n, x))
  {
    var ring' := InsertAt(ring, n, x);
    assert forall i :: 0 <= i < |ring'| ==> ring'[i] == if i < n then ring[i] else if i == n then x else ring[i - 1];
  }

  lemma {:induction false} DistinctRemove<T>(ring: seq<Link<T>>, n: nat)
    requires Distinct(ring) && n < |ring|
    ensures Distinct(RemoveAt(ring, n)) && ring[n] !in RemoveAt(ring, n)
  {
    var ring' := RemoveAt(ring, n);
    assert forall i :: 0 <= i < |ring'| ==> ring'[i] == if i < n then ring[i] else ring[i + 1];
  }

  // -------------------------------------------------------------------------------------- primitives

  /** The neighbours once `x` stands behind place `i`. */
  lemma {:induction false} InsertedAfter<T>(ring: seq<Link<T>>, i: nat, x: Link<T>, j: nat)
    requires i < |ring| && j <= |ring|
    ensures |InsertAt(ring, i + 1, x)| == |ring| + 1
    ensures j < i ==> InsertAt(ring, i + 1, x)[j] == ring[j] && After(InsertAt(ring, i + 1, x), j) == After(ring, j)
    ensures j == i ==> InsertAt(ring, i + 1, x)[j] == ring[i] && After(InsertAt(ring, i + 1, x), j) == x
    ensures j == i + 1 ==> InsertAt(ring, i + 1, x)[j] == x && After(InsertAt(ring, i + 1, x), j) == After(ring, i)
    ensures j > i + 1 ==>
      InsertAt(ring, i + 1, x)[j] == ring[j - 1] && After(InsertAt(ring, i + 1, x), j) == After(ring, j - 1)
  {
  }

  lemma {:induction false} InsertedBefore<T>(ring: seq<Link<T>>, i: nat, x: Link<T>, j: nat)
    requires i < |ring| && j <= |ring|
    ensures |InsertAt(ring, i + 1, x)| == |ring| + 1
    ensures j == i + 1 ==> Before(InsertAt(ring, i + 1, x), j) == ring[i]
    ensures j == (if i + 1 < |ring| then i + 2 else 0) ==> Before(InsertAt(ring, i + 1, x), j) == x
    ensures j != i + 1 && j != (if i + 1 < |ring| then i + 2 else 0) ==>
      Before(InsertAt(ring, i + 1, x), j) == Before(ring, if j <= i then j else j - 1)
  {
  }

  /** Links `x` in between two neighbours. */
  method LinkBetween<T>(x: Link<T>, prev: Link<T>, next: Link<T>, ghost ring: seq<Link<T>>, ghost i: nat)
    requires IsRing(ring) && i < |ring| && prev == ring[i] && next == After(ring, i) && x !in ring
    modifies x`next, x`prev, prev`next, next`prev
    ensures IsRing(InsertAt(ring, i + 1, x))
  {
    DistinctInsert(ring, i + 1, x);
    ghost var n := if i + 1 < |ring| then i + 1 else 0;
    ghost var ring' := InsertAt(ring, i + 1, x);
    assert next == ring[n] && |ring'| > 0;
    assert forall j :: 0 <= j < |ring| && j != i ==> ring[j] != prev;
    assert forall j :: 0 <= j < |ring| && j != n ==> ring[j] != next;
    assert forall j :: 0 <= j < |ring| ==> ring[j] != x;
    hide InsertAt, After, Before, Distinct;
    next.prev := x;
    x.next := next;
    x.prev := prev;
    prev.next := x;
    forall j | 0 <= j < |ring'| ensures ring'[j].next == After(ring', j) && ring'[j].prev == Before(ring', j) {
      InsertedAfter(ring, i, x, j);
      InsertedBefore(ring, i, x, j);
    }
  }

  /** Puts `x` behind `at`. */
  method ListAdd<T>(x: Link<T>, at: Link<T>, ghost ring: seq<Link<T>>, ghost i: nat)
    requires IsRing(ring) && i < |ring| && at == ring[i] && x !in ring
    modifies x, at, at.next
    ensures IsRing(InsertAt(ring, i + 1, x))
  {
    LinkBetween(x, at, at.next, ring, i);
  }

  /** Puts `x` in front of `at`; in front of the head is the end of the list. */
  method ListAddTail<T>(x: Link<T>, at: Link<T>, ghost ring: seq<Link<T>>, ghost i: nat)
    requires IsRing(ring) && i < |ring| && at == ring[i] && x !in ring
    modifies x, at, at.prev
    ensures IsRing(InsertAt(ring, if i == 0 then |ring| else i, x))
  {
    LinkBetween(x, at.prev, at, ring, if i == 0 then |ring| - 1 else i - 1);
  }

  /** The neighbours once the link at place `i` is gone. */
  lemma {:induction false} RemovedNeighbours<T>(ring: seq<Link<T>>, i: nat, j: nat)
    requires 0 < i < |ring| && j < |ring| - 1
    ensures var ring' := RemoveAt(ring, i); var k := if j < i then j else j + 1;
      var n := if i + 1 < |ring| then i + 1 else 0;
      && |ring'| == |ring| - 1 && ring'[j] == ring[k] && k != i
      && After(ring', j) == (if k == i - 1 then ring[n] else After(ring, k))
      && Before(ring', j) == (if k == n then ring[i - 1] else Before(ring, k))
  {
  }

  /** Takes `x` out and leaves it pointing nowhere. */
  method ListDel<T>(x: Link<T>, ghost ring: seq<Link<T>>, ghost i: nat)
    requires IsRing(ring) && 0 < i < |ring| && x == ring[i]
    modifies x, x.prev, x.next
    ensures IsRing(RemoveAt(ring, i))
  {
    DistinctRemove(ring, i);
    ghost var n := if i + 1 < |ring| then i + 1 else 0;
    ghost var ring' := RemoveAt(ring, i);
    assert x.prev == ring[i - 1] && x.next == ring[n] && |ring'| > 0;
    assert forall j :: 0 <= j < |ring| && j != i ==> ring[j] != x;
    assert forall j :: 0 <= j < |ring| && j != i - 1 ==> ring[j] != ring[i - 1];
    assert forall j :: 0 <= j < |ring| && j != n ==> ring[j] != ring[n];
    hide Distinct, After, Before, RemoveAt;
    var prev, next := x.prev, x.next;
    next.prev := prev;
    prev.next := next;
    x.next := null;
    x.prev := null;
    forall j | 0 <= j < |ring'| ensures ring'[j].next == After(ring', j) && ring'[j].prev == Before(ring', j) {
      RemovedNeighbours(ring, i, j);
    }
  }

  /** Links `x` in behind `old'` and takes that one out. */
  method Exchange<T>(x: Link<T>, old': Link<T>, ghost ring: seq<Link<T>>, ghost i: nat)
    requires IsRing(ring) && 0 < i < |ring| && old' == ring[i] && x !in ring
    modifies x, ring
    ensures IsRing(ring[i := x])
  {
    ghost var ring' := InsertAt(ring, i + 1, x);
    assert |ring'| == |ring| + 1 && ring'[i] == old' && RemoveAt(ring', i) == ring[i := x];
    assert forall l :: l in ring' ==> l == x || l in ring;
    hide InsertAt, RemoveAt, Distinct;
    Neighbours(ring, i);
    ListAdd(x, old', ring, i);
    Neighbours(ring', i);
    ListDel(old', ring', i);
  }

  lemma {:induction false} RemovedIn<T>(ring: seq<T>, i: nat)
    requires i < |ring|
    ensures forall l :: l in RemoveAt(ring, i) ==> l in ring
    ensures i > 0 ==> RemoveAt(ring, i)[0] == ring[0]
  {
  }

  /** Takes all links out, front to back; the next link is looked up before the present one goes. */
  method DropAll<T>(head: Link<T>, ghost ring: seq<Link<T>>)
    requires IsRing(ring) && head == ring[0]
    modifies ring
    ensures IsRing([head])
  {
    ghost var left := ring;
    var r := head.next;
    while r != head
      invariant IsRing(left) && left[0] == head && r == After(left, 0)
      invariant forall l :: l in left ==> l in ring
      decreases |left|
    {
      Neighbours(left, 1);
      RemovedIn(left, 1);
      var tmp := r.next;
      assert left[1] in left;
      assert r in ring && r.prev in ring && r.next in ring;
      ListDel(r, left, 1);
      left := RemoveAt(left, 1);
      r := tmp;
    }
    assert left == [head];
  }

  // ------------------------------------------------------------------------------------ rules of a chain

  /** No head among the links. */
  ghost predicate AllRules<T>(links: seq<Link<T>>) {
    forall i :: 0 <= i < |links| ==> links[i].item.Some?
  }

  ghost function ItemsOf<T>(links: seq<Link<T>>): seq<T>
    requires AllRules(links)
  {
    seq(|links|, i requires 0 <= i < |links| => links[i].item.value)
  }

  lemma {:induction false} InsertLinks<T>(head: Link<T>, links: seq<Link<T>>, n: nat, r: Link<T>)
    requires n <= |links| && r.item.Some? && AllRules(links)
    ensures InsertAt([head] + links, n + 1, r) == [head] + InsertAt(links, n, r)
    ensures |InsertAt(links, n, r)| == |links| + 1
    ensures AllRules(InsertAt(links, n, r))
    ensures ItemsOf(InsertAt(links, n, r)) == InsertAt(ItemsOf(links), n, r.item.value)
    ensures forall l :: l in InsertAt(links, n, r) ==> l == r || l in links
  {
  }

  lemma {:induction false} RemoveLinks<T>(head: Link<T>, links: seq<Link<T>>, n: nat)
    requires n < |links| && AllRules(links)
    ensures RemoveAt([head] + links, n + 1) == [head] + RemoveAt(links, n)
    ensures |RemoveAt(links, n)| == |links| - 1
    ensures AllRules(RemoveAt(links, n))
    ensures ItemsOf(RemoveAt(links, n)) == RemoveAt(ItemsOf(links), n)
  {
  }

  lemma {:induction false} ReplaceLinks<T>(head: Link<T>, links: seq<Link<T>>, n: nat, r: Link<T>)
    requires n < |links| && r.item.Some? && AllRules(links)
    ensures ([head] + links)[n + 1 := r] == [head] + links[n := r]
    ensures AllRules(links[n := r])
    ensures ItemsOf(links[n := r]) == ItemsOf(links)[n := r.item.value]
    ensures forall l :: l in links[n := r] ==> l == r || l in links
  {
  }

  class RuleChain<T> {
    const rules: Link<T>
    var numRules: nat
    /** The links of the rules, in order. */
    ghost var links: seq<Link<T>>

    ghost predicate Valid()
      reads this, rules, links
    {
      && IsRing([rules] + links)
      && numRules == |links|
      && AllRules(links)
    }

    ghost function Items(): seq<T>
      reads this, rules, links
      requires Valid()
    {
      ItemsOf(links)
    }

    constructor ()
      ensures Valid() && Items() == [] && fresh(rules)
    {
      rules := new Link(None);
      numRules := 0;
      links := [];
    }

    /** Rule number `rulenum`, counting from 1 at the front. */
    method GetRuleNum(rulenum: nat) returns (r: Link?<T>)
      requires Valid()
      ensures r == if 1 <= rulenum <= |links| then links[rulenum - 1] else null
    {
      ghost var ring := [rules] + links;
      var num, pos := 0, rules.next;
      while pos != rules
        invariant num <= |links| && pos == After(ring, num)
        invariant num < rulenum || rulenum == 0
        decreases |links| - num
      {
        num := num + 1;
        if num == rulenum {
          return pos;
        }
        assert pos == ring[num];
        pos := pos.next;
      }
      return null;
    }

    /** Rule number `rulenum`, counting from 1 at the back. */
    method GetRuleNumReverse(rulenum: nat) returns (r: Link?<T>)
      requires Valid()
      ensures r == if 1 <= rulenum <= |links| then links[|links| - rulenum] else null
    {
      ghost var ring := [rules] + links;
      Neighbours(ring, 0);
      OnlyHead(ring);
      hide IsRing, Distinct, AllRules;
      ghost var at := |links|;
      var num, pos := 0, rules.prev;
      while pos != rules
        invariant 0 <= at <= |links| && at + num == |links| && pos == ring[at]
        invariant num < rulenum || rulenum == 0
        decreases at
      {
        Neighbours(ring, at);
        num := num + 1;
        at := at - 1;
        if num == rulenum {
          return pos;
        }
        pos := pos.prev;
      }
      return null;
    }

    /** Rule `n`, counting from 0, from the nearer end. */
    method RuleAt(n: nat) returns (r: Link<T>)
      requires Valid() && n < numRules
      ensures r == links[n]
    {
      var found: Link?<T>;
      if n + 1 <= numRules / 2 {
        found := GetRuleNum(n + 1);
      } else {
        found := GetRuleNumReverse(numRules - n);
      }
      return found;
    }

    /** Links a new rule in so that it becomes rule `n`. */
    method Insert(n: nat, item: T)
      requires Valid() && n <= numRules
      modifies this, rules, links
      ensures Valid() && Items() == InsertAt(old(Items()), n, item)
      ensures fresh(set l | l in links && l !in old(links))
    {
      var prev := rules;
      if n != numRules {
        prev := RuleAt(n);
      }
      LinkIn(prev, n, item);
    }

    /** Links a new rule in before `prev`, which is rule `n`, or the head behind the last one. */
    method LinkIn(prev: Link<T>, ghost n: nat, item: T)
      requires Valid() && n <= numRules && prev == if n == numRules then rules else links[n]
      modifies this, rules, links
      ensures Valid() && Items() == InsertAt(old(Items()), n, item)
      ensures fresh(set l | l in links && l !in old(links))
    {
      var r := new Link(Some(item));
      ghost var ring := [rules] + links;
      ghost var at := if n == numRules then 0 else n + 1;
      InsertLinks(rules, links, n, r);
      hide InsertAt, ItemsOf, Distinct, Before, After, AllRules;
      Neighbours(ring, at);
      links, numRules := InsertAt(links, n, r), numRules + 1;
      ListAddTail(r, prev, ring, at);
    }

    method Append(item: T)
      requires Valid()
      modifies this, rules, links
      ensures Valid() && Items() == old(Items()) + [item]
      ensures fresh(set l | l in links && l !in old(links))
    {
      var r := new Link(Some(item));
      ghost var ring := [rules] + links;
      InsertLinks(rules, links, |links|, r);
      assert InsertAt(links, |links|, r) == links + [r];
      assert InsertAt(Items(), |links|, item) == Items() + [item];
      hide InsertAt, ItemsOf, Distinct, Before, After, AllRules;
      Neighbours(ring, 0);
      links, numRules := links + [r], numRules + 1;
      ListAddTail(r, rules, ring, 0);
    }

    /** Links the new rule in behind the old one, and takes the old one out. */
    method Replace(n: nat, item: T)
      requires Valid() && n < numRules
      modifies this, rules, links
      ensures Valid() && Items() == old(Items())[n := item]
      ensures fresh(set l | l in links && l !in old(links))
    {
      var before := RuleAt(n);
      var r := new Link(Some(item));
      ghost var ring := [rules] + links;
      ReplaceLinks(rules, links, n, r);
      hide ItemsOf, Distinct, Before, After, AllRules;
      links := links[n := r];
      Exchange(r, before, ring, n + 1);
    }

    /** Takes a rule out. */
    method DeleteRule(r: Link<T>, ghost n: nat)
      requires Valid() && n < numRules && r == links[n]
      modifies this, rules, links
      ensures Valid() && Items() == RemoveAt(old(Items()), n)
      ensures links == RemoveAt(old(links), n)
    {
      ghost var ring := [rules] + links;
      RemoveLinks(rules, links, n);
      hide RemoveAt, ItemsOf, Distinct, Before, After, AllRules;
      Neighbours(ring, n + 1);
      links, numRules := RemoveAt(links, n), numRules - 1;
      ListDel(r, ring, n + 1);
    }

    method DeleteNum(n: nat)
      requires Valid() && n < numRules
      modifies this, rules, links
      ensures Valid() && Items() == RemoveAt(old(Items()), n)
      ensures links == RemoveAt(old(links), n)
    {
      var r := RuleAt(n);
      DeleteRule(r, n);
    }

    method Flush()
      requires Valid()
      modifies this, rules, links
      ensures Valid() && Items() == []
    {
      ghost var ring := [rules] + links;
      links, numRules := [], 0;
      DropAll(rules, ring);
    }
  }
}
