/** What every counter comes out as when a table is committed, from the slots of its rules: the kernel's count at the
    commit, the value that was given, or nothing, and in every case what passes afterwards. */
module Counting {
  import opened Names
  import opened Seqs
  import opened Rulesets
  import opened Cache
  import opened HandleFacts
  import opened Slots
  import opened Layout
  import opened Walk
  import opened Snapshot
  import opened Commit
  import opened Reread
  import opened RoundTrip

  /** Counters have 64 bits. */
  predicate Counts(c: Counters, packets: int, bytes: int) {
    c.packets == packets % 0x1_0000_0000_0000_0000 && c.bytes == bytes % 0x1_0000_0000_0000_0000
  }

  /** The counter that belongs to a slot.  The old table's counters were `was` when the commit began and grew by
      `growth` until the tables were swapped; the entry in the new table has been passed by `after` since. */
  predicate ComesOut(x: Slot, was: seq<Counters>, growth: seq<Counters>, after: Counters, now: Counters) {
    match x.counterMap
    case NormalMap(n) =>
      && n < |was| && n < |growth|
      && Counts(now, was[n].packets + growth[n].packets + after.packets, was[n].bytes + growth[n].bytes + after.bytes)
    case Zeroed(n) =>
      && n < |was| && n < |growth|
      && Counts(now, was[n].packets - x.counters.packets + growth[n].packets + after.packets,
                was[n].bytes - x.counters.bytes + growth[n].bytes + after.bytes)
    case SetTo => Counts(now, x.counters.packets + after.packets, x.counters.bytes + after.bytes)
    case NoMap => now == after
  }

  /** The slot of a rule, or of the policy of a chain. */
  function SlotAtSpot(ss: seq<ChainSlots>, p: Spot): Slot
    requires p.chain < |ss|
  {
    if p.rule < |ss[p.chain].rules| then ss[p.chain].rules[p.rule] else ss[p.chain].policy
  }

  /** Every rule and every policy of the new table has the counter that belongs to its slot. */
  ghost predicate AllComeOut(ss: seq<ChainSlots>, cs: seq<ChainHead>, was: seq<Counters>, growth: seq<Counters>,
                             after: nat -> Counters, counts: seq<Counters>)
  {
    && |ss| == |cs|
    && forall p :: IsSlotSpot(cs, p) ==>
         && IndexOf(cs, p) < |counts|
         && ComesOut(SlotAtSpot(ss, p), was, growth, after(IndexOf(cs, p)), counts[IndexOf(cs, p)])
  }

  lemma {:induction false} WordAdds(a: Word, b: Word)
    ensures Add(a, b) == (a + b) % 0x1_0000_0000_0000_0000
  {
  }

  lemma {:induction false} WordsAdd(a: Word, b: Word, c: Word)
    ensures Add(Add(a, b), c) == (a + b + c) % 0x1_0000_0000_0000_0000
  {
  }

  /** What has grown is the difference of the counts. */
  lemma {:induction false} WordsGrow(first: Word, grown: Word, growth: Word, after: Word)
    ensures Add(Add(Add(first, grown), growth), after)
         == (Add(first, grown) + growth + after) % 0x1_0000_0000_0000_0000
    ensures Add(Add(first, Add(grown, growth)), after) == Add(Add(Add(first, grown), growth), after)
    ensures Add(Add(grown, growth), after)
         == (Add(first, grown) - first + growth + after) % 0x1_0000_0000_0000_0000
  {
    WordsAdd(Add(first, grown), growth, after);
    WordsAssociate(first, grown, growth);
    WordsAdd(grown, growth, after);
    var was := Add(first, grown);
    assert was == first + grown || was == first + grown - 0x1_0000_0000_0000_0000;
    hide *;
    SameRemainder(grown + growth + after, was - first + growth + after);
  }

  lemma {:induction false} SameRemainder(x: int, y: int)
    requires y == x || y == x - 0x1_0000_0000_0000_0000
    ensures x % 0x1_0000_0000_0000_0000 == y % 0x1_0000_0000_0000_0000
  {
  }

  /** What a slot's counter has to be, in numbers. */
  lemma {:induction false} WantedComesOut(x: Slot, first: seq<Counters>, grown: seq<Counters>, growth: seq<Counters>,
                                          after: Counters)
    requires |first| == |grown| == |growth| && SlotOk(x.counterMap, x.counters, first)
    ensures ComesOut(x, PlusAll(first, grown), growth, after,
                     Wanted(x.counterMap, x.counters, first, PlusAll(grown, growth), after))
  {
    hide Add;
    match x.counterMap
    case NoMap =>
    case SetTo =>
      WordAdds(x.counters.packets, after.packets);
      WordAdds(x.counters.bytes, after.bytes);
    case NormalMap(n) =>
      WordsGrow(first[n].packets, grown[n].packets, growth[n].packets, after.packets);
      WordsGrow(first[n].bytes, grown[n].bytes, growth[n].bytes, after.bytes);
    case Zeroed(n) =>
      WordsGrow(first[n].packets, grown[n].packets, growth[n].packets, after.packets);
      WordsGrow(first[n].bytes, grown[n].bytes, growth[n].bytes, after.bytes);
  }

  /** The slots of chains that the compiler has laid out. */
  lemma {:induction false} SameTableSlots(cs: seq<ChainHead>, cs': seq<ChainHead>)
    requires SameTable(cs, cs')
    ensures SlotsOf(cs') == SlotsOf(cs)
  {
    forall k | 0 <= k < |cs| ensures SlotsIn(cs'[k]) == SlotsIn(cs[k]) {
      assert SameHead(cs[k], cs'[k]);
      forall i | 0 <= i < |cs[k].rules| ensures RuleSlot(cs'[k].rules[i]) == RuleSlot(cs[k].rules[i]) {
        assert SameRule(cs[k].rules[i], cs'[k].rules[i]);
      }
    }
  }

  lemma {:induction false} SpotSlot(cs: seq<ChainHead>, p: Spot)
    requires IsSlotSpot(cs, p)
    ensures p.chain < |SlotsOf(cs)| && SlotAtSpot(SlotsOf(cs), p) == Slot(SlotMap(cs, p), SlotCounters(cs, p))
  {
    SlotsAt(cs, p.chain);
    hide SlotsOf;
  }

  /** After a commit every counter is what belongs to its slot. */
  lemma {:induction false} CountersFollow(cs: seq<ChainHead>, first: seq<Counters>, grown: seq<Counters>,
                                          growth: seq<Counters>, after: nat -> Counters, counts: seq<Counters>)
    requires |first| == |grown| == |growth| && Tracked(cs, first)
    requires CountersRight(cs, first, PlusAll(grown, growth), after, counts)
    ensures AllComeOut(SlotsOf(cs), cs, PlusAll(first, grown), growth, after, counts)
  {
    SlotsMany(cs);
    forall p | IsSlotSpot(cs, p)
      ensures IndexOf(cs, p) < |counts|
      ensures ComesOut(SlotAtSpot(SlotsOf(cs), p), PlusAll(first, grown), growth, after(IndexOf(cs, p)),
                       counts[IndexOf(cs, p)])
    {
      SpotSlot(cs, p);
      SlotIsOk(cs, first, p);
      hide Tracked, ComesOut, Wanted, SlotsOf, SlotAtSpot, SlotMap, SlotCounters, IndexOf, IsSlotSpot, SlotOk;
      WantedComesOut(Slot(SlotMap(cs, p), SlotCounters(cs, p)), first, grown, growth, after(IndexOf(cs, p)));
    }
  }

  lemma {:induction false} SlotsMany(cs: seq<ChainHead>)
    ensures |SlotsOf(cs)| == |cs|
  {
  }

  // -------------------------------------------------------------------------------- slots as read

  /** A slot whose counter is to go on from entry `n` of the table in force. */
  function KeptSlot(counts: seq<Counters>, n: nat): Slot {
    Slot(NormalMap(n), if n < |counts| then counts[n] else ZERO_COUNTERS)
  }

  /** The slots of a chain whose first rule is entry number `n`. */
  function KeptChain(c: ChainHead, counts: seq<Counters>, n: nat): ChainSlots {
    ChainSlots(KeptSlot(counts, n + |c.rules|),
               seq(|c.rules|, i requires 0 <= i < |c.rules| => KeptSlot(counts, n + i)))
  }

  /** The slots of a table that has just been read: each counter is that of the entry itself. */
  function ReadSlots(cs: seq<ChainHead>, counts: seq<Counters>): seq<ChainSlots> {
    seq(|cs|, k requires 0 <= k < |cs| => KeptChain(cs[k], counts, BaseCount(cs, k) + HeadCount(cs[k])))
  }

  lemma {:induction false} KeptAt(cs: seq<ChainHead>, counts: seq<Counters>, k: nat)
    requires Placed(Recounted(cs, counts)) && |counts| == TableCount(cs) && k < |cs|
    ensures SlotsIn(Final(Recounted(cs, counts))[k]) == KeptChain(cs[k], counts, BaseCount(cs, k) + HeadCount(cs[k]))
  {
    hide *;
    KeptSlotIs(counts, BaseCount(cs, k) + HeadCount(cs[k]) + |cs[k].rules|);
    var c, f := Recounted(cs, counts)[k], Final(Recounted(cs, counts))[k];
    var n := BaseCount(cs, k) + HeadCount(cs[k]);
    RecountedAt(cs, counts, k);
    FinalIs(Recounted(cs, counts), k);
    RuleSlots(f);
    KeptIs(cs[k], counts, n);
    forall i | 0 <= i < |c.rules| ensures SlotsIn(f).rules[i] == KeptSlot(counts, n + i) {
      KeptRule(c, f, counts, n, i);
    }
    assert SlotsIn(f).policy == KeptChain(cs[k], counts, n).policy;
    assert SlotsIn(f).rules == KeptChain(cs[k], counts, n).rules;
  }

  lemma {:induction false} KeptSlotIs(counts: seq<Counters>, n: nat)
    ensures n < |counts| ==> KeptSlot(counts, n) == Slot(NormalMap(n), counts[n])
  {
  }

  lemma {:induction false} KeptIs(c: ChainHead, counts: seq<Counters>, n: nat)
    ensures KeptChain(c, counts, n).policy == KeptSlot(counts, n + |c.rules|)
    ensures |KeptChain(c, counts, n).rules| == |c.rules|
    ensures forall i {:trigger KeptChain(c, counts, n).rules[i]} :: 0 <= i < |c.rules| ==>
      KeptChain(c, counts, n).rules[i] == KeptSlot(counts, n + i)
  {
  }

  lemma {:induction false} FinalIs(cs: seq<ChainHead>, k: nat)
    requires k < |cs|
    ensures var f := Final(cs)[k];
      && f.rules == Map(cs[k].rules, FinalRule) && |f.rules| == |cs[k].rules|
      && SlotsIn(f).policy == Slot(NormalMap(cs[k].footIndex), cs[k].counters)
  {
  }

  /** The numbers of a chain's entries, and the counters they have been given. */
  lemma {:induction false} RecountedAt(cs: seq<ChainHead>, counts: seq<Counters>, k: nat)
    requires Placed(Recounted(cs, counts)) && |counts| == TableCount(cs) && k < |cs|
    ensures var c, n := Recounted(cs, counts)[k], BaseCount(cs, k) + HeadCount(cs[k]);
      && |c.rules| == |cs[k].rules| && n + |c.rules| < |counts|
      && c.footIndex == n + |c.rules| && c.counters == counts[n + |c.rules|]
      && forall i {:trigger c.rules[i]} :: 0 <= i < |c.rules| ==>
           c.rules[i].index == n + i && c.rules[i].entry.counters == counts[n + i]
  {
    hide *;
    var rs, n := Recounted(cs, counts), BaseCount(cs, k) + HeadCount(cs[k]);
    RecountedBases(cs, counts, k);
    EntriesWithin(cs, k);
    CountsGiven(cs, counts, k);
    EntryNumbers(rs, k);
  }

  lemma {:induction false} EntriesWithin(cs: seq<ChainHead>, k: nat)
    requires k < |cs|
    ensures BaseCount(cs, k) + HeadCount(cs[k]) + |cs[k].rules| < TableCount(cs)
  {
    BaseMonotone(cs, k + 1, |cs|);
  }

  lemma {:induction false} CountsGiven(cs: seq<ChainHead>, counts: seq<Counters>, k: nat)
    requires k < |cs| && BaseCount(cs, k) + HeadCount(cs[k]) + |cs[k].rules| < |counts|
    ensures var c, n := Recounted(cs, counts)[k], BaseCount(cs, k) + HeadCount(cs[k]);
      && |c.rules| == |cs[k].rules| && HeadCount(c) == HeadCount(cs[k]) && c.counters == counts[n + |c.rules|]
      && forall i {:trigger c.rules[i]} :: 0 <= i < |c.rules| ==> c.rules[i].entry.counters == counts[n + i]
  {
    hide BaseCount;
  }

  lemma {:induction false} EntryNumbers(cs: seq<ChainHead>, k: nat)
    requires Placed(cs) && k < |cs|
    ensures var c, n := cs[k], BaseCount(cs, k) + HeadCount(cs[k]);
      && c.footIndex == n + |c.rules|
      && forall i {:trigger c.rules[i]} :: 0 <= i < |c.rules| ==> c.rules[i].index == n + i
  {
    assert ChainPlaced(cs[k], Base(cs, k), BaseCount(cs, k));
    hide SizeUpTo, Base, BaseCount;
  }

  lemma {:induction false} KeptRule(c: ChainHead, f: ChainHead, counts: seq<Counters>, n: nat, i: nat)
    requires i < |c.rules| && f.rules == Map(c.rules, FinalRule)
    requires n + i < |counts| && c.rules[i].index == n + i && c.rules[i].entry.counters == counts[n + i]
    ensures SlotsIn(f).rules[i] == KeptSlot(counts, n + i)
  {
    RuleSlots(f);
    assert f.rules[i] == FinalRule(c.rules[i]);
  }

  /** A table that is read carries the kernel's count of every entry in the slot of that very entry. */
  lemma {:induction false} ReadKeeps(cs: seq<ChainHead>, counts: seq<Counters>)
    requires Placed(Recounted(cs, counts)) && |counts| == TableCount(cs)
    ensures SlotsOf(Final(Recounted(cs, counts))) == ReadSlots(cs, counts)
  {
    var fs := Final(Recounted(cs, counts));
    SlotsMany(fs);
    forall k | 0 <= k < |cs| ensures SlotsOf(fs)[k] == ReadSlots(cs, counts)[k] {
      KeptAt(cs, counts, k);
      SlotsAt(fs, k);
    }
    assert |SlotsOf(fs)| == |ReadSlots(cs, counts)|;
  }

  // ------------------------------------------------------------------------------- single counters

  /** A rule zeroed after it was read comes out as what has passed it since it was read; zeroing a rule whose counter
      was given, or that has none to come from, changes nothing.  All other slots stay. */
  lemma {:induction false} ZeroedSlot(c: ChainHead, i: nat, n: nat)
    requires i < |c.rules|
    ensures var x, x' := SlotsIn(c).rules[i], SlotsIn(ZeroedRule(c, i)).rules[i];
      && x'.counters == x.counters
      && (x.counterMap == NormalMap(n) ==> x'.counterMap == Zeroed(n))
      && (!x.counterMap.NormalMap? ==> x' == x)
      && SlotsIn(ZeroedRule(c, i)) == SlotsIn(c).(rules := SlotsIn(c).rules[i := x'])
  {
    RuleSlots(c);
    RuleSlots(ZeroedRule(c, i));
    MapUpdate(c.rules, i, ZeroedRule(c, i).rules[i], RuleSlot);
    hide Map;
  }

  /** The same for a whole chain and its policy. */
  lemma {:induction false} ZeroedSlots(c: ChainHead, i: nat, n: nat)
    ensures var s, s' := SlotsIn(c), SlotsIn(ZeroedChain(c));
      && |s'.rules| == |s.rules| == |c.rules|
      && s'.policy.counters == s.policy.counters && (i < |c.rules| ==> s'.rules[i].counters == s.rules[i].counters)
      && (s.policy.counterMap == NormalMap(n) ==> s'.policy.counterMap == Zeroed(n))
      && (!s.policy.counterMap.NormalMap? ==> s'.policy == s.policy)
      && (i < |c.rules| ==>
           && (s.rules[i].counterMap == NormalMap(n) ==> s'.rules[i].counterMap == Zeroed(n))
           && (!s.rules[i].counterMap.NormalMap? ==> s'.rules[i] == s.rules[i]))
  {
    var c' := ZeroedChain(c);
    RuleSlots(c);
    RuleSlots(c');
    hide Map;
    assert |c'.rules| == |c.rules|;
    assert c'.counters == c.counters && c'.counterMap == ZeroMap(c.counterMap);
    if i < |c.rules| {
      assert c'.rules[i] == c.rules[i].(counterMap := ZeroMap(c.rules[i].counterMap));
    }
  }

  /** A counter that is set is given the value. */
  lemma {:induction false} GivenSlot(c: ChainHead, i: nat, value: Counters)
    requires i < |c.rules|
    ensures |SlotsIn(c).rules| == |c.rules|
    ensures SlotsIn(CountedRule(c, i, value)) == SlotsIn(c).(rules := SlotsIn(c).rules[i := Slot(SetTo, value)])
  {
    MapUpdate(c.rules, i, CountedRule(c, i, value).rules[i], RuleSlot);
  }

  /** A policy that is set has the value given with it, or starts anew. */
  lemma {:induction false} PolicySlot(c: ChainHead, value: Counters, verdict: int)
    ensures SlotsIn(WithPolicy(c, verdict, Some(value))) == SlotsIn(c).(policy := Slot(SetTo, value))
    ensures SlotsIn(WithPolicy(c, verdict, None)) == SlotsIn(c).(policy := Slot(NoMap, c.counters))
  {
    assert WithPolicy(c, verdict, Some(value)).rules == c.rules && WithPolicy(c, verdict, None).rules == c.rules;
    hide Map;
  }
}
