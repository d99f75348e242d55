/** The counter slots of a table: where the counter of each rule and each policy is to come from when the table is
    committed, and the value it has now. */
module Slots {
  import opened Names
  import opened Seqs
  import opened Rulesets
  import opened Cache
  import opened HandleFacts

  datatype Slot = Slot(counterMap: CounterMap, counters: Counters)

  /** The slot of a chain's policy and the slots of its rules. */
  datatype ChainSlots = ChainSlots(policy: Slot, rules: seq<Slot>)

  /** A chain that has just been made. */
  const EMPTY_SLOTS := ChainSlots(Slot(NoMap, ZERO_COUNTERS), [])

  function RuleSlot(r: RuleHead): Slot { Slot(r.counterMap, r.entry.counters) }

  function SlotsIn(c: ChainHead): ChainSlots { ChainSlots(Slot(c.counterMap, c.counters), Map(c.rules, RuleSlot)) }

  function SlotsOf(cs: seq<ChainHead>): seq<ChainSlots> { Map(cs, SlotsIn) }

  /** The slots with one more for a rule put in at place `n` of chain `k`. */
  function SlotPut(ss: seq<ChainSlots>, k: nat, n: nat, x: Slot): seq<ChainSlots> {
    if k < |ss| && n <= |ss[k].rules| then ss[k := ss[k].(rules := InsertAt(ss[k].rules, n, x))] else ss
  }

  /** The slots without that of rule `n` of chain `k`. */
  function SlotTaken(ss: seq<ChainSlots>, k: nat, n: nat): seq<ChainSlots> {
    if k < |ss| && n < |ss[k].rules| then ss[k := ss[k].(rules := RemoveAt(ss[k].rules, n))] else ss
  }

  function SlotSet(ss: seq<ChainSlots>, k: nat, n: nat, x: Slot): seq<ChainSlots> {
    if k < |ss| && n < |ss[k].rules| then ss[k := ss[k].(rules := ss[k].rules[n := x])] else ss
  }

  function SlotsCleared(ss: seq<ChainSlots>, k: nat): seq<ChainSlots> {
    if k < |ss| then ss[k := ss[k].(rules := [])] else ss
  }

  /** The slots with those of a new chain at place `p`. */
  function SlotsMade(ss: seq<ChainSlots>, p: nat): seq<ChainSlots> {
    if p <= |ss| then InsertAt(ss, p, EMPTY_SLOTS) else ss
  }

  /** The slots without those of chain `d`. */
  function SlotsGone(ss: seq<ChainSlots>, d: nat): seq<ChainSlots> {
    if d < |ss| then RemoveAt(ss, d) else ss
  }

  lemma {:induction false} SlotsAt(cs: seq<ChainHead>, k: nat)
    requires k < |cs|
    ensures |SlotsOf(cs)| == |cs| && SlotsOf(cs)[k] == SlotsIn(cs[k]) && |SlotsOf(cs)[k].rules| == |cs[k].rules|
    ensures SlotsOf(cs)[k].policy == Slot(cs[k].counterMap, cs[k].counters)
    ensures forall i {:trigger SlotsOf(cs)[k].rules[i]} :: 0 <= i < |cs[k].rules| ==>
      SlotsOf(cs)[k].rules[i] == Slot(cs[k].rules[i].counterMap, cs[k].rules[i].entry.counters)
  {
    assert SlotsOf(cs)[k] == SlotsIn(cs[k]);
    assert SlotsIn(cs[k]).rules == Map(cs[k].rules, RuleSlot);
  }

  lemma {:induction false} RuleSlots(c: ChainHead)
    ensures |SlotsIn(c).rules| == |c.rules|
    ensures forall i {:trigger SlotsIn(c).rules[i]} {:trigger c.rules[i]} :: 0 <= i < |c.rules| ==>
      SlotsIn(c).rules[i] == Slot(c.rules[i].counterMap, c.rules[i].entry.counters)
  {
    assert SlotsIn(c).rules == Map(c.rules, RuleSlot);
  }

  lemma {:induction false} SlotsLinked(cs: seq<ChainHead>, k: nat, n: nat, r: RuleHead)
    requires k < |cs| && n <= |cs[k].rules|
    ensures SlotsOf(LinkedAt(cs, k, n, r)) == SlotPut(SlotsOf(cs), k, n, RuleSlot(r))
  {
    SlotsAt(cs, k);
    MapInsert(cs[k].rules, n, r, RuleSlot);
    MapUpdate(cs, k, LinkedAt(cs, k, n, r)[k], SlotsIn);
    hide Map, InsertAt, RuleSlot;
  }

  lemma {:induction false} SlotsUnlinked(cs: seq<ChainHead>, k: nat, n: nat)
    requires k < |cs| && n < |cs[k].rules| && cs[k].numRules > 0
    ensures SlotsOf(UnlinkedAt(cs, k, n)) == SlotTaken(SlotsOf(cs), k, n)
  {
    SlotsAt(cs, k);
    MapRemove(cs[k].rules, n, RuleSlot);
    MapUpdate(cs, k, UnlinkedAt(cs, k, n)[k], SlotsIn);
    hide Map, RemoveAt, RuleSlot;
  }

  lemma {:induction false} SlotsUpdated(cs: seq<ChainHead>, k: nat, c: ChainHead)
    requires k < |cs|
    ensures SlotsOf(cs[k := c]) == SlotsOf(cs)[k := SlotsIn(c)]
  {
    MapUpdate(cs, k, c, SlotsIn);
  }

  /** References do not matter. */
  lemma {:induction false} SlotsOfRefs(cs: seq<ChainHead>, cs': seq<ChainHead>)
    requires |cs'| == |cs| && forall k :: 0 <= k < |cs| ==> cs'[k] == cs[k].(references := cs'[k].references)
    ensures SlotsOf(cs') == SlotsOf(cs)
  {
    forall k | 0 <= k < |cs| ensures SlotsIn(cs'[k]) == SlotsIn(cs[k]) {
    }
  }

  lemma {:induction false} SlotsOfLinked(cs: seq<ChainHead>, cs': seq<ChainHead>, r: RuleHead)
    requires Linked(cs, cs', r) || Unlinked(cs, cs', r)
    ensures SlotsOf(cs') == SlotsOf(cs)
  {
    if cs' != cs {
      SlotsOfRefs(cs, cs');
    }
  }

  lemma {:induction false} SlotsCreated(cs: seq<ChainHead>, p: nat, c: ChainHead)
    requires p <= |cs| && c.rules == [] && c.counterMap == NoMap && c.counters == ZERO_COUNTERS
    ensures SlotsOf(InsertAt(cs, p, c)) == SlotsMade(SlotsOf(cs), p)
  {
    MapInsert(cs, p, c, SlotsIn);
    assert SlotsIn(c).rules == [];
  }

  lemma {:induction false} SlotsDeleted(cs: seq<ChainHead>, d: nat)
    requires d < |cs|
    ensures SlotsOf(RemoveAt(cs, d)) == SlotsGone(SlotsOf(cs), d)
  {
    MapRemove(cs, d, SlotsIn);
  }

  /** Putting the new slot behind the old one and taking that one out puts it in its place. */
  lemma {:induction false} SlotSpliced(ss: seq<ChainSlots>, k: nat, n: nat, x: Slot)
    requires k < |ss| && n < |ss[k].rules|
    ensures SlotTaken(SlotPut(ss, k, n + 1, x), k, n) == SlotSet(ss, k, n, x)
  {
    var rules := ss[k].rules;
    assert RemoveAt(InsertAt(rules, n + 1, x), n) == rules[n := x];
  }

  /** Only the rules of chain `k` may differ. */
  predicate SlotsBut(ss: seq<ChainSlots>, ss': seq<ChainSlots>, k: nat) {
    k < |ss| == |ss'| && ss' == ss[k := ss[k].(rules := ss'[k].rules)]
  }

  lemma {:induction false} TakenBut(ss: seq<ChainSlots>, ss1: seq<ChainSlots>, k: nat, n: nat)
    requires SlotsBut(ss, ss1, k)
    ensures SlotsBut(ss, SlotTaken(ss1, k, n), k)
  {
  }

  lemma {:induction false} NothingLeft(ss: seq<ChainSlots>, ss1: seq<ChainSlots>, k: nat)
    requires SlotsBut(ss, ss1, k) && ss1[k].rules == []
    ensures ss1 == SlotsCleared(ss, k)
  {
  }
}
