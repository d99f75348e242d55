/** Committing a table while packets keep arriving: the kernel swaps the tables in one step and hands back
    the old counters, from which the new ones are made up. */
module Commit {
  import opened Names
  import opened Seqs
  import opened Rulesets
  import opened Cache
  import opened HandleFacts
  import opened Handles
  import opened Layout
  import opened Compiler
  import opened Walk
  import opened Snapshot

  /** 64-bit sums and differences wrap around. */
  function Add(a: Word, b: Word): Word { if a + b < WORD then a + b else a + b - WORD }

  function Subtract(a: Word, b: Word): Word { if a >= b then a - b else a - b + WORD }

  function Plus(a: Counters, b: Counters): Counters {
    Counters(Add(a.packets, b.packets), Add(a.bytes, b.bytes))
  }

  function Minus(a: Counters, b: Counters): Counters {
    Counters(Subtract(a.packets, b.packets), Subtract(a.bytes, b.bytes))
  }

  function PlusAll(a: seq<Counters>, b: seq<Counters>): (c: seq<Counters>)
    requires |a| == |b|
    ensures |c| == |a| && forall i :: 0 <= i < |a| ==> c[i] == Plus(a[i], b[i])
  {
    seq(|a|, i requires 0 <= i < |a| => Plus(a[i], b[i]))
  }

  // -------------------------------------------------------------------------------------- the kernel

  /** The kernel's side: the table in force and the counter of each entry, in the order of entries. */
  class Kernel {
    var blob: Blob
    var counts: seq<Counters>

    constructor (blob: Blob, counts: seq<Counters>)
      ensures this.blob == blob && this.counts == counts
    {
      this.blob, this.counts := blob, counts;
    }

    /** Packets arrive and are counted. */
    method Traffic(passed: nat -> Counters)
      modifies this`counts
      ensures counts == PlusAll(old(counts), Growth(blob, passed, |old(counts)|))
    {
      counts := PlusAll(counts, Growth(blob, passed, |counts|));
    }

    /** Puts a new table in force, with counters at zero, and returns the counters of the old one. */
    method Replace(b: Blob, number: nat) returns (old': seq<Counters>)
      modifies this
      ensures old' == old(counts) && blob == b && counts == seq(number, _ => ZERO_COUNTERS)
    {
      old' := counts;
      blob := b;
      counts := seq(number, _ => ZERO_COUNTERS);
    }

    method AddCounters(more: seq<Counters>)
      requires |more| == |counts|
      modifies this`counts
      ensures counts == PlusAll(old(counts), more)
    {
      counts := PlusAll(counts, more);
    }
  }

  // ------------------------------------------------------------------------------ making up counters

  /** What is added to a slot's new counter, from the old counters and the slot's own. */
  function Credit(m: CounterMap, own: Counters, old': seq<Counters>): Counters {
    match m
    case NoMap => ZERO_COUNTERS
    case NormalMap(p) => if p < |old'| then old'[p] else ZERO_COUNTERS
    case Zeroed(p) => if p < |old'| then Minus(old'[p], own) else ZERO_COUNTERS
    case SetTo => own
  }

  /** The credits of a chain's entries in order; error nodes and the feet of user chains get none. */
  ghost function ChainCredits(c: ChainHead, old': seq<Counters>, n: nat): (s: seq<Counters>)
    requires n <= |c.rules|
    ensures |s| == ChainCount(c)
  {
    seq(HeadCount(c), _ => ZERO_COUNTERS)
    + seq(|c.rules|, i requires 0 <= i < |c.rules| =>
        if i < n then Credit(c.rules[i].counterMap, c.rules[i].entry.counters, old') else ZERO_COUNTERS)
    + [if c.hook > 0 then Credit(c.counterMap, c.counters, old') else ZERO_COUNTERS]
  }

  ghost function CreditsUpTo(cs: seq<ChainHead>, old': seq<Counters>, k: nat): (s: seq<Counters>)
    requires k <= |cs|
    ensures |s| == BaseCount(cs, k)
  {
    if k == 0 then [] else CreditsUpTo(cs, old', k - 1) + ChainCredits(cs[k - 1], old', |cs[k - 1].rules|)
  }

  ghost function Zero(n: nat): (s: seq<Counters>)
    ensures |s| == n
  {
    seq(n, _ => ZERO_COUNTERS)
  }

  /** The credits written when `k` chains are done, the policy of chain `k` too if `policy`, and `n` of its
      rules. */
  ghost predicate Credited(cs: seq<ChainHead>, old': seq<Counters>, new': seq<Counters>, k: nat)
    requires k <= |cs|
  {
    BaseCount(cs, k) <= TableCount(cs) && new' == CreditsUpTo(cs, old', k) + Zero(TableCount(cs) - BaseCount(cs, k))
  }

  ghost predicate CreditedIn(cs: seq<ChainHead>, old': seq<Counters>, new': seq<Counters>, k: nat, n: nat)
    requires k < |cs| && n <= |cs[k].rules|
  {
    && BaseCount(cs, k + 1) <= TableCount(cs)
    && new' == CreditsUpTo(cs, old', k) + ChainCredits(cs[k], old', n) + Zero(TableCount(cs) - BaseCount(cs, k + 1))
  }

  /** Writing into the middle part of three. */
  lemma {:induction false} WriteMiddle(a: seq<Counters>, b: seq<Counters>, c: seq<Counters>, i: nat, x: Counters)
    requires i < |b|
    ensures (a + b + c)[|a| + i := x] == a + b[i := x] + c
  {
  }

  lemma {:induction false} SplitZero(m: nat, n: nat)
    ensures Zero(m + n) == Zero(m) + Zero(n)
  {
  }

  /** The credits of a chain before its first rule is done. */
  lemma {:induction false} ChainCreditsStart(c: ChainHead, old': seq<Counters>)
    ensures c.hook == 0 ==> ChainCredits(c, old', 0) == Zero(ChainCount(c))
    ensures c.hook > 0 ==>
      ChainCredits(c, old', 0) == Zero(ChainCount(c))[|c.rules| := Credit(c.counterMap, c.counters, old')]
  {
  }

  lemma {:induction false} ChainCreditsNext(c: ChainHead, old': seq<Counters>, n: nat)
    requires n < |c.rules|
    ensures ChainCredits(c, old', n + 1) == ChainCredits(c, old', n)[HeadCount(c) + n :=
      Credit(c.rules[n].counterMap, c.rules[n].entry.counters, old')]
  {
  }

  lemma {:induction false} CreditPolicy(cs: seq<ChainHead>, old': seq<Counters>, new': seq<Counters>, k: nat,
                                        new'': seq<Counters>)
    requires k < |cs| && Placed(cs) && Credited(cs, old', new', k)
    requires cs[k].hook == 0 ==> new'' == new'
    requires cs[k].hook > 0 ==>
      (cs[k].footIndex < |new'| && new'' == new'[cs[k].footIndex := Credit(cs[k].counterMap, cs[k].counters, old')])
    ensures CreditedIn(cs, old', new'', k, 0)
  {
    var c := cs[k];
    BaseMonotone(cs, k + 1, |cs|);
    assert ChainPlaced(c, Base(cs, k), BaseCount(cs, k));
    var a, rest := CreditsUpTo(cs, old', k), Zero(TableCount(cs) - BaseCount(cs, k + 1));
    assert BaseCount(cs, k + 1) == BaseCount(cs, k) + ChainCount(c);
    SplitZero(ChainCount(c), TableCount(cs) - BaseCount(cs, k + 1));
    ChainCreditsStart(c, old');
    assert new' == a + Zero(ChainCount(c)) + rest;
    if c.hook > 0 {
      WriteMiddle(a, Zero(ChainCount(c)), rest, |c.rules|, Credit(c.counterMap, c.counters, old'));
    }
  }

  lemma {:induction false} CreditRule(cs: seq<ChainHead>, old': seq<Counters>, new': seq<Counters>, k: nat, n: nat,
                                      new'': seq<Counters>)
    requires k < |cs| && n < |cs[k].rules| && Placed(cs) && CreditedIn(cs, old', new', k, n)
    requires cs[k].rules[n].index < |new'| && new'' == new'[cs[k].rules[n].index :=
      Credit(cs[k].rules[n].counterMap, cs[k].rules[n].entry.counters, old')]
    ensures CreditedIn(cs, old', new'', k, n + 1)
  {
    var c := cs[k];
    assert ChainPlaced(c, Base(cs, k), BaseCount(cs, k));
    assert c.rules[n].index == BaseCount(cs, k) + HeadCount(c) + n;
    ChainCreditsNext(c, old', n);
    hide BaseCount, ChainCredits, CreditsUpTo, Placed, ChainPlaced, Credit, Base;
    WriteMiddle(CreditsUpTo(cs, old', k), ChainCredits(c, old', n), Zero(TableCount(cs) - BaseCount(cs, k + 1)),
                HeadCount(c) + n, Credit(c.rules[n].counterMap, c.rules[n].entry.counters, old'));
  }

  lemma {:induction false} IndexInTable(cs: seq<ChainHead>, k: nat)
    requires Placed(cs) && k < |cs|
    ensures cs[k].footIndex < TableCount(cs)
    ensures forall n :: 0 <= n < |cs[k].rules| ==> cs[k].rules[n].index < TableCount(cs)
  {
    BaseMonotone(cs, k + 1, |cs|);
    assert ChainPlaced(cs[k], Base(cs, k), BaseCount(cs, k));
  }

  /** Makes up the counters of the new table, slot by slot. */
  method PutBack(cs: seq<ChainHead>, old': seq<Counters>, number: nat) returns (new': seq<Counters>)
    requires Placed(cs) && number == TableCount(cs)
    ensures new' == CreditsUpTo(cs, old', |cs|) + [ZERO_COUNTERS]
  {
    new' := seq(number, _ => ZERO_COUNTERS);
    var k := 0;
    assert CreditsUpTo(cs, old', 0) + Zero(TableCount(cs)) == new';
    while k < |cs|
      invariant k <= |cs| && Credited(cs, old', new', k)
    {
      IndexInTable(cs, k);
      ghost var before := new';
      if cs[k].hook > 0 {
        new' := new'[cs[k].footIndex := Credit(cs[k].counterMap, cs[k].counters, old')];
      }
      CreditPolicy(cs, old', before, k, new');
      new' := PutBackRules(cs, old', new', k);
      k := k + 1;
    }
    assert Zero(1) == [ZERO_COUNTERS];
  }

  method PutBackRules(cs: seq<ChainHead>, old': seq<Counters>, start: seq<Counters>, k: nat)
    returns (new': seq<Counters>)
    requires Placed(cs) && k < |cs| && CreditedIn(cs, old', start, k, 0)
    ensures Credited(cs, old', new', k + 1)
  {
    new' := start;
    IndexInTable(cs, k);
    var n := 0;
    while n < |cs[k].rules|
      invariant n <= |cs[k].rules| && CreditedIn(cs, old', new', k, n)
    {
      var r := cs[k].rules[n];
      ghost var before := new';
      new' := new'[r.index := Credit(r.counterMap, r.entry.counters, old')];
      CreditRule(cs, old', before, k, n, new');
      n := n + 1;
    }
  }

  // ------------------------------------------------------------------------------------------ commit

  /** Index of an entry in the order of the new table. */
  function IndexOf(cs: seq<ChainHead>, p: Spot): nat
    requires SpotOk(cs, p)
  {
    BaseCount(cs, p.chain) + HeadCount(cs[p.chain]) + p.rule
  }

  /** The counter map and the counter held by the cache for a rule, or for a builtin chain's policy. */
  function SlotMap(cs: seq<ChainHead>, p: Spot): CounterMap
    requires SpotOk(cs, p)
  {
    if p.rule < |cs[p.chain].rules| then cs[p.chain].rules[p.rule].counterMap else cs[p.chain].counterMap
  }

  function SlotCounters(cs: seq<ChainHead>, p: Spot): Counters
    requires SpotOk(cs, p)
  {
    if p.rule < |cs[p.chain].rules| then cs[p.chain].rules[p.rule].entry.counters else cs[p.chain].counters
  }

  /** A rule, or the policy of a builtin chain. */
  ghost predicate IsSlotSpot(cs: seq<ChainHead>, p: Spot) {
    SpotOk(cs, p) && (p.rule < |cs[p.chain].rules| || cs[p.chain].hook > 0)
  }

  /** What a slot's counter must be in the end.  `first` is the counter read with the table, `before` the growth
      up to the swap, `after` the growth from the swap on: a kept counter goes on as if nothing had happened, a
      zeroed one shows the growth since it was read, a set one starts from its value. */
  function Wanted(m: CounterMap, own: Counters, first: seq<Counters>, before: seq<Counters>, after: Counters): Counters
    requires |first| == |before|
  {
    match m
    case NoMap => after
    case NormalMap(p) => if p < |first| then Plus(Plus(first[p], before[p]), after) else after
    case Zeroed(p) => if p < |first| then Plus(before[p], after) else after
    case SetTo => Plus(own, after)
  }

  lemma {:induction false} CreditIs(cs: seq<ChainHead>, old': seq<Counters>, p: Spot, n: nat)
    requires IsSlotSpot(cs, p) && p.chain < n <= |cs|
    ensures IndexOf(cs, p) < BaseCount(cs, n)
    ensures CreditsUpTo(cs, old', n)[IndexOf(cs, p)] == Credit(SlotMap(cs, p), SlotCounters(cs, p), old')
  {
    BaseMonotone(cs, p.chain, n - 1);
    if p.chain < n - 1 {
      CreditIs(cs, old', p, n - 1);
    } else {
      var c := cs[p.chain];
      assert ChainCredits(c, old', |c.rules|)[HeadCount(c) + p.rule]
          == Credit(SlotMap(cs, p), SlotCounters(cs, p), old');
    }
  }

  /** Crediting makes up for the swap, in 64-bit arithmetic. */
  lemma {:induction false} CreditMakesUp(m: CounterMap, own: Counters, first: seq<Counters>, before: seq<Counters>,
                                         after: Counters)
    requires |before| == |first| && SlotOk(m, own, first)
    ensures Plus(Plus(ZERO_COUNTERS, after), Credit(m, own, PlusAll(first, before)))
         == Wanted(m, own, first, before, after)
  {
    hide Plus, Minus;
    PlusLaws(own, ZERO_COUNTERS, after);
    if (m.NormalMap? || m.Zeroed?) && m.pos < |first| {
      PlusLaws(first[m.pos], before[m.pos], after);
    }
  }

  lemma {:induction false} PlusLaws(x: Counters, y: Counters, z: Counters)
    ensures Plus(Plus(ZERO_COUNTERS, z), Plus(x, y)) == Plus(Plus(x, y), z)
    ensures Plus(Plus(ZERO_COUNTERS, z), Minus(Plus(x, y), x)) == Plus(y, z)
    ensures Plus(Plus(ZERO_COUNTERS, z), x) == Plus(x, z) && Plus(Plus(ZERO_COUNTERS, z), ZERO_COUNTERS) == z
  {
    hide Add, Subtract;
    WordSum(x.packets, y.packets, z.packets);
    WordSum(x.bytes, y.bytes, z.bytes);
    WordDifference(x.packets, y.packets, z.packets);
    WordDifference(x.bytes, y.bytes, z.bytes);
    WordZero(x.packets, z.packets);
    WordZero(x.bytes, z.bytes);
  }

  lemma {:induction false} WordSum(x: Word, y: Word, z: Word)
    ensures Add(Add(0, z), Add(x, y)) == Add(Add(x, y), z)
  {
  }

  lemma {:induction false} WordDifference(x: Word, y: Word, z: Word)
    ensures Add(Add(0, z), Subtract(Add(x, y), x)) == Add(y, z)
  {
  }

  lemma {:induction false} WordZero(x: Word, z: Word)
    ensures Add(Add(0, z), x) == Add(x, z) && Add(Add(0, z), 0) == z
  {
  }

  lemma {:induction false} SlotIsOk(cs: seq<ChainHead>, first: seq<Counters>, p: Spot)
    requires Tracked(cs, first) && IsSlotSpot(cs, p)
    ensures SlotOk(SlotMap(cs, p), SlotCounters(cs, p), first)
  {
    assert ChainSlotsOk(cs[p.chain], first);
  }

  /** The counters come out right, whatever the traffic before and after the swap. */
  lemma {:induction false} CountersConserved(cs: seq<ChainHead>, first: seq<Counters>, before: seq<Counters>,
                                             after: seq<Counters>, p: Spot)
    requires Tracked(cs, first) && |before| == |first| && |after| == TableCount(cs) && IsSlotSpot(cs, p)
    ensures IndexOf(cs, p) < TableCount(cs)
    ensures PlusAll(PlusAll(Zero(TableCount(cs)), after),
                    CreditsUpTo(cs, PlusAll(first, before), |cs|) + [ZERO_COUNTERS])[IndexOf(cs, p)]
         == Wanted(SlotMap(cs, p), SlotCounters(cs, p), first, before, after[IndexOf(cs, p)])
  {
    CreditIs(cs, PlusAll(first, before), p, |cs|);
    SlotIsOk(cs, first, p);
    hide Tracked, SlotOk, Credit, Wanted, CreditsUpTo, BaseCount, SlotMap, SlotCounters, Plus, IndexOf;
    CreditMakesUp(SlotMap(cs, p), SlotCounters(cs, p), first, before, after[IndexOf(cs, p)]);
  }

  /** No old counter is credited to two slots. */
  lemma {:induction false} NoDoubleCredit(cs: seq<ChainHead>, first: seq<Counters>, p: Spot, q: Spot)
    requires Tracked(cs, first) && IsSlotSpot(cs, p) && IsSlotSpot(cs, q) && p != q
    requires SlotMap(cs, p).NormalMap? || SlotMap(cs, p).Zeroed?
    requires SlotMap(cs, q).NormalMap? || SlotMap(cs, q).Zeroed?
    ensures SlotMap(cs, p).pos != SlotMap(cs, q).pos
  {
    var at := SlotMap(cs, p).pos;
    assert Takers(cs, at) <= 1;
    if SlotMap(cs, p).pos == SlotMap(cs, q).pos {
      SlotTakes(cs[p.chain], p.rule, at);
      SlotTakes(cs[q.chain], q.rule, at);
      if p.chain != q.chain {
        TotalBounds(cs, p.chain, q.chain, ChainMaps(at));
      } else {
        TwoSlotsTake(cs[p.chain], p.rule, q.rule, at);
        TotalBounds(cs, p.chain, p.chain, ChainMaps(at));
      }
    }
  }

  ghost predicate Takes(c: ChainHead, i: nat, at: nat) {
    if i < |c.rules| then Maps(c.rules[i].counterMap, at) == 1
    else i == |c.rules| && c.hook > 0 && Maps(c.counterMap, at) == 1
  }

  lemma {:induction false} SlotTakes(c: ChainHead, i: nat, at: nat)
    requires Takes(c, i, at)
    ensures ChainMaps(at)(c) >= 1
  {
    if i < |c.rules| { TotalBounds(c.rules, i, i, RuleMaps(at)); }
  }

  lemma {:induction false} TwoSlotsTake(c: ChainHead, i: nat, j: nat, at: nat)
    requires Takes(c, i, at) && Takes(c, j, at) && i != j
    ensures ChainMaps(at)(c) >= 2
  {
    if i < |c.rules| && j < |c.rules| {
      TotalBounds(c.rules, i, j, RuleMaps(at));
    } else if i < |c.rules| {
      TotalBounds(c.rules, i, i, RuleMaps(at));
    } else {
      TotalBounds(c.rules, j, j, RuleMaps(at));
    }
  }

  lemma {:induction false} HeadCreditsNothing(cs: seq<ChainHead>, old': seq<Counters>, k: nat, n: nat)
    requires k < n <= |cs| && cs[k].hook == 0
    ensures BaseCount(cs, k) < BaseCount(cs, n) && CreditsUpTo(cs, old', n)[BaseCount(cs, k)] == ZERO_COUNTERS
  {
    BaseMonotone(cs, k, n - 1);
    if k < n - 1 { HeadCreditsNothing(cs, old', k, n - 1); }
  }

  /** Error nodes count nothing: they get no credit, and no packet reaches them. */
  lemma {:induction false} CommitStaysQuiet(cs: seq<ChainHead>, old': seq<Counters>, after: seq<Counters>)
    requires Quiet(cs, after)
    ensures Quiet(cs, PlusAll(PlusAll(Zero(TableCount(cs)), after), CreditsUpTo(cs, old', |cs|) + [ZERO_COUNTERS]))
  {
    var counts := PlusAll(PlusAll(Zero(TableCount(cs)), after), CreditsUpTo(cs, old', |cs|) + [ZERO_COUNTERS]);
    forall k {:trigger BaseCount(cs, k)} | 0 <= k < |cs| && cs[k].hook == 0
      ensures BaseCount(cs, k) < |counts| && counts[BaseCount(cs, k)] == ZERO_COUNTERS
    {
      HeadCreditsNothing(cs, old', k, |cs|);
    }
  }

  lemma {:induction false} SlotWithin(cs: seq<ChainHead>, p: Spot)
    requires IsSlotSpot(cs, p)
    ensures IndexOf(cs, p) < TableCount(cs)
  {
    BaseMonotone(cs, p.chain + 1, |cs|);
  }

  lemma {:induction false} GrowthAt(b: Blob, passed: nat -> Counters, n: nat, i: nat)
    requires i < n && !IsErrorNode(b, i)
    ensures Growth(b, passed, n)[i] == passed(i)
  {
    hide IsErrorNode;
  }

  /** What a new slot has counted at the swap. */
  lemma {:induction false} SpotGrowth(cs: seq<ChainHead>, b: Blob, passed: nat -> Counters, p: Spot)
    requires Compiled(cs, b) && PoliciesOk(cs) && IsSlotSpot(cs, p)
    ensures IndexOf(cs, p) < TableCount(cs)
    ensures Growth(b, passed, TableCount(cs))[IndexOf(cs, p)] == passed(IndexOf(cs, p))
  {
    SlotWithin(cs, p);
    SpotCounts(cs, b, p);
    hide *;
    GrowthAt(b, passed, TableCount(cs), IndexOf(cs, p));
  }

  /** The counters of the new table once they have been put back. */
  ghost predicate CountersRight(cs: seq<ChainHead>, first: seq<Counters>, before: seq<Counters>,
                                after: nat -> Counters, counts: seq<Counters>)
    requires |first| == |before|
  {
    forall p :: IsSlotSpot(cs, p) ==>
      && IndexOf(cs, p) < |counts|
      && counts[IndexOf(cs, p)] == Wanted(SlotMap(cs, p), SlotCounters(cs, p), first, before, after(IndexOf(cs, p)))
  }

  lemma {:induction false} CountersComeOut(cs: seq<ChainHead>, b: Blob, first: seq<Counters>, before: seq<Counters>,
                                           after: nat -> Counters, counts: seq<Counters>)
    requires Compiled(cs, b) && PoliciesOk(cs) && Tracked(cs, first) && |before| == |first|
    requires counts == PlusAll(PlusAll(Zero(TableCount(cs)), Growth(b, after, TableCount(cs))),
                               CreditsUpTo(cs, PlusAll(first, before), |cs|) + [ZERO_COUNTERS])
    ensures CountersRight(cs, first, before, after, counts) && Quiet(cs, counts)
  {
    GrowthIsQuiet(cs, b, after);
    CommitStaysQuiet(cs, PlusAll(first, before), Growth(b, after, TableCount(cs)));
    hide Compiled, Tracked, PoliciesOk, Quiet;
    forall p | IsSlotSpot(cs, p)
      ensures IndexOf(cs, p) < |counts|
      ensures counts[IndexOf(cs, p)]
           == Wanted(SlotMap(cs, p), SlotCounters(cs, p), first, before, after(IndexOf(cs, p)))
    {
      SpotGrowth(cs, b, after, p);
      CountersConserved(cs, first, before, Growth(b, after, TableCount(cs)), p);
    }
  }

  lemma {:induction false} PlusAssociates(x: Counters, y: Counters, z: Counters)
    ensures Plus(Plus(x, y), z) == Plus(x, Plus(y, z)) && Plus(x, ZERO_COUNTERS) == x
  {
    WordsAssociate(x.packets, y.packets, z.packets);
    WordsAssociate(x.bytes, y.bytes, z.bytes);
    hide Add;
  }

  lemma {:induction false} WordsAssociate(x: Word, y: Word, z: Word)
    ensures Add(Add(x, y), z) == Add(x, Add(y, z)) && Add(x, 0) == x
  {
  }

  lemma {:induction false} GrowthsAdd(x: seq<Counters>, y: seq<Counters>, z: seq<Counters>)
    requires |x| == |y| == |z|
    ensures PlusAll(PlusAll(x, y), z) == PlusAll(x, PlusAll(y, z)) && PlusAll(x, Zero(|x|)) == x
  {
    forall i | 0 <= i < |x|
      ensures PlusAll(PlusAll(x, y), z)[i] == PlusAll(x, PlusAll(y, z))[i] && PlusAll(x, Zero(|x|))[i] == x[i]
    {
      PlusAssociates(x[i], y[i], z[i]);
    }
  }

  /** A whole commit.  `grown` is what has passed each entry since the table was read, `before` what passes it until
      the swap, `after` what passes each entry of the new table between the swap and putting the counters back.
      The kernel may refuse the new table. */
  method CommitTable(h: Handle, kernel: Kernel, ghost grown: seq<Counters>, before: nat -> Counters,
                     after: nat -> Counters, refused: bool) returns (ok: bool)
    requires h.Valid() && Ready(h.chains) && PoliciesOk(h.chains)
    requires |grown| == |h.original| && kernel.counts == PlusAll(h.original, grown)
    modifies h`chains, kernel
    ensures h.Valid() && h.Rules() == old(h.Rules()) && SameTable(old(h.chains), h.chains)
    ensures ok <==> !h.changed || !refused
    // Nothing to commit, or the table is refused: the kernel keeps its table and counts on.
    ensures !h.changed || refused ==> kernel.blob == old(kernel.blob)
    ensures !h.changed || refused ==>
      kernel.counts == PlusAll(old(kernel.counts), Growth(old(kernel.blob), before, |grown|))
    // Otherwise the new table is in force, and every rule and policy has the counter it should have.
    ensures h.changed && !refused ==> Compiled(h.chains, kernel.blob) && Quiet(h.chains, kernel.counts)
    ensures h.changed && !refused ==>
      CountersRight(h.chains, h.original, PlusAll(grown, Growth(old(kernel.blob), before, |grown|)), after,
                    kernel.counts)
  {
    ghost var first, growth := h.original, PlusAll(grown, Growth(kernel.blob, before, |grown|));
    GrowthsAdd(first, grown, Growth(kernel.blob, before, |grown|));
    kernel.Traffic(before);
    if !h.changed {
      SameTableReflexive(h.chains);
      return true;
    }
    ghost var cs := h.chains;
    var b, number := Compile(h);
    if refused {
      return false;
    }
    SamePolicies(cs, h.chains);
    hide Ready, PoliciesOk, Compiled, SameTable, IsSlotSpot, CreditsUpTo, Quiet;
    var old' := kernel.Replace(b, number);
    kernel.Traffic(after);
    var new' := PutBack(h.chains, old', number);
    kernel.AddCounters(new');
    CountersComeOut(h.chains, b, first, growth, after, kernel.counts);
    return true;
  }

  lemma {:induction false} SamePolicies(cs: seq<ChainHead>, cs': seq<ChainHead>)
    requires SameTable(cs, cs') && PoliciesOk(cs)
    ensures PoliciesOk(cs')
  {
  }

  lemma {:induction false} SameTableReflexive(cs: seq<ChainHead>)
    ensures SameTable(cs, cs)
  {
  }
}
