/** Reading the table in force from the kernel while it counts packets: the blob tiles its bytes, entries are
    numbered in the order of their offsets, and counters do not change what the table means. */
module Snapshot {
  import opened Names
  import opened Seqs
  import opened Rulesets
  import opened Cache
  import opened HandleFacts
  import opened Layout
  import opened Compiler
  import opened Walk
  import opened RoundTrip
  import opened Reread

  // ----------------------------------------------------------------------------------------- tiling

  /** Where entry number `n` lies: from each entry on to the next by the entry's own size. */
  function Walked(b: Blob, n: nat): Option<nat> {
    if n == 0 then Some(0)
    else match Walked(b, n - 1)
      case None => None
      case Some(off) =>
        if off in b.entries && off < b.size then Some(off + EntrySize(b.entries[off])) else None
  }

  lemma {:induction false} WalkedStep(b: Blob, n: nat, off: nat, e: Entry)
    requires Walked(b, n) == Some(off) && EntryAt(b.entries, off, e) && off < b.size
    ensures Walked(b, n + 1) == Some(off + EntrySize(e))
  {
  }

  /** From the start of a chain to any of its entries. */
  lemma {:induction false} WalkedInChain(cs: seq<ChainHead>, b: Blob, k: nat, j: nat)
    requires Compiled(cs, b) && k < |cs| && j <= |cs[k].rules| && Walked(b, BaseCount(cs, k)) == Some(Base(cs, k))
    ensures Walked(b, BaseCount(cs, k) + HeadCount(cs[k]) + j) == Some(Offset(cs, Spot(k, j)))
  {
    hide Walked;
    if j > 0 {
      WalkedInChain(cs, b, k, j - 1);
      StepOver(cs, b, k, j - 1, BaseCount(cs, k) + HeadCount(cs[k]) + j - 1);
    } else if cs[k].hook == 0 {
      UserHeadLies(cs, b, k);
      WalkedStep(b, BaseCount(cs, k), Base(cs, k), HeadEntry(cs[k].name));
    } else {
      PlacedInOrder(cs, b);
      OffsetIs(cs, Spot(k, 0));
    }
  }

  lemma {:induction false} StepOver(cs: seq<ChainHead>, b: Blob, k: nat, j: nat, n: nat)
    requires Compiled(cs, b) && k < |cs| && j <= |cs[k].rules| && Walked(b, n) == Some(Offset(cs, Spot(k, j)))
    ensures Walked(b, n + 1) == Some(if j < |cs[k].rules| then Offset(cs, Spot(k, j + 1)) else Base(cs, k + 1))
  {
    EntryOf(cs, b, Spot(k, j));
    NotTheEnd(cs, b, k, j);
    EntryEnds(cs, b, k, j);
    hide Compiled, Walked, Offset;
    WalkedStep(b, n, Offset(cs, Spot(k, j)), EntryOfChain(cs[k], j));
  }

  lemma {:induction false} WalkedToChain(cs: seq<ChainHead>, b: Blob, k: nat)
    requires Compiled(cs, b) && k <= |cs|
    ensures Walked(b, BaseCount(cs, k)) == Some(Base(cs, k))
  {
    hide Compiled;
    if k > 0 {
      WalkedToChain(cs, b, k - 1);
      WalkedInChain(cs, b, k - 1, |cs[k - 1].rules|);
      hide Walked;
      StepOver(cs, b, k - 1, |cs[k - 1].rules|, BaseCount(cs, k) - 1);
    }
  }

  /** Every place of the chains is met by the walk, as the entry with its number. */
  lemma {:induction false} WalkedTo(cs: seq<ChainHead>, b: Blob, k: nat, j: nat)
    requires Compiled(cs, b) && k < |cs| && j <= |cs[k].rules|
    ensures Walked(b, BaseCount(cs, k) + HeadCount(cs[k]) + j) == Some(Offset(cs, Spot(k, j)))
  {
    WalkedToChain(cs, b, k);
    WalkedInChain(cs, b, k, j);
  }

  lemma {:induction false} WalkedToEnd(cs: seq<ChainHead>, b: Blob)
    requires Compiled(cs, b)
    ensures Walked(b, TableCount(cs) - 1) == Some(b.size - HEAD_SIZE) && Walked(b, TableCount(cs)) == Some(b.size)
    ensures EntryAt(b.entries, b.size - HEAD_SIZE, HeadEntry(ERROR_TARGET)) && |b.entries| == TableCount(cs)
  {
    WalkedToChain(cs, b, |cs|);
    hide Walked;
    WalkedStep(b, TableCount(cs) - 1, b.size - HEAD_SIZE, HeadEntry(ERROR_TARGET));
  }

  /** A walk that goes on to `m` entries steps on entries, ever further. */
  lemma {:induction false} WalkedGrows(b: Blob, n: nat, m: nat)
    requires n < m && Walked(b, m).Some?
    ensures Walked(b, n).Some? && Walked(b, n).value in b.entries && Walked(b, n).value < Walked(b, m).value
    decreases m
  {
    if n < m - 1 { WalkedGrows(b, n, m - 1); }
  }

  lemma {:induction false} WalkedNext(b: Blob, n: nat, m: nat)
    requires n < m && Walked(b, m).Some?
    ensures Walked(b, n).Some? && Walked(b, n).value in b.entries
    ensures Walked(b, n + 1) == Some(Walked(b, n).value + EntrySize(b.entries[Walked(b, n).value]))
  {
    WalkedGrows(b, n, m);
    if n + 1 < m { WalkedGrows(b, n + 1, m); }
  }

  /** The offsets of the first `n` entries. */
  ghost function Visited(b: Blob, n: nat): set<nat> {
    set i | 0 <= i < n && Walked(b, i).Some? :: Walked(b, i).value
  }

  lemma {:induction false} VisitedCount(b: Blob, n: nat)
    requires Walked(b, n).Some?
    ensures |Visited(b, n)| == n && Visited(b, n) <= b.entries.Keys
  {
    if n == 0 {
      assert Visited(b, 0) == {};
    } else {
      VisitedCount(b, n - 1);
      var last := Walked(b, n - 1).value;
      if last in Visited(b, n - 1) {
        var i :| 0 <= i < n - 1 && Walked(b, i) == Some(last);
        WalkedGrows(b, i, n - 1);
      }
      assert Visited(b, n) == Visited(b, n - 1) + {last};
    }
  }

  lemma {:induction false} SubsetSameSize<T>(a: set<T>, b: set<T>)
    requires a <= b && |a| == |b|
    ensures a == b
  {
    if x :| x in b && x !in a {
      assert |b| == |b - {x}| + 1;
      SubsetSmaller(a, b - {x});
    }
  }

  lemma {:induction false} SubsetSmaller<T>(a: set<T>, b: set<T>)
    requires a <= b
    ensures |a| <= |b|
  {
    if a != {} {
      var x :| x in a;
      SubsetSmaller(a - {x}, b - {x});
    }
  }

  lemma {:induction false} AllVisited(b: Blob, off: nat)
    requires Walked(b, |b.entries|).Some? && off in b.entries
    ensures exists n :: 0 <= n < |b.entries| && Walked(b, n) == Some(off)
  {
    VisitedCount(b, |b.entries|);
    SubsetSameSize(Visited(b, |b.entries|), b.entries.Keys);
    hide Walked;
    assert off in Visited(b, |b.entries|);
  }

  /** The entries of a blob tile it: walking from one to the next by their sizes meets each of them once, ever
      further on, and ends exactly at the end of the blob. */
  ghost predicate Tiles(b: Blob) {
    && Walked(b, |b.entries|) == Some(b.size)
    && (forall off {:trigger off in b.entries} :: off in b.entries ==>
         exists n :: 0 <= n < |b.entries| && Walked(b, n) == Some(off))
    && (forall n {:trigger Walked(b, n)} :: 0 <= n < |b.entries| ==>
         Walked(b, n).Some? && Walked(b, n).value in b.entries)
    && (forall m, n {:trigger Walked(b, m), Walked(b, n)} :: 0 <= m < n < |b.entries| ==>
          Walked(b, m).value < Walked(b, n).value)
  }

  lemma {:induction false} WalkTiles(b: Blob)
    requires Walked(b, |b.entries|) == Some(b.size)
    ensures Tiles(b)
  {
    hide Walked;
    forall n | 0 <= n < |b.entries| ensures Walked(b, n).Some? && Walked(b, n).value in b.entries {
      WalkedGrows(b, n, |b.entries|);
    }
    forall m, n | 0 <= m < n < |b.entries| ensures Walked(b, m).value < Walked(b, n).value {
      WalkedGrows(b, m, n);
    }
    forall off | off in b.entries ensures exists n :: 0 <= n < |b.entries| && Walked(b, n) == Some(off) {
      AllVisited(b, off);
    }
  }

  /** A compiled blob is tiled by its entries, as many as were counted. */
  lemma {:induction false} TilesExactly(cs: seq<ChainHead>, b: Blob)
    requires Compiled(cs, b)
    ensures Tiles(b) && |b.entries| == TableCount(cs)
  {
    WalkedToEnd(cs, b);
    hide Compiled;
    WalkTiles(b);
  }

  // -------------------------------------------------------------------------------- reading counters

  /** Blob `b'` is blob `b` with `counts` as the counters of its entries, in their order. */
  ghost predicate CountedAs(b: Blob, counts: seq<Counters>, b': Blob) {
    && b' == b.(entries := b'.entries) && b'.entries.Keys == b.entries.Keys
    && forall n :: 0 <= n < |counts| ==>
        && Walked(b, n).Some? && Walked(b, n).value in b.entries && Walked(b, n).value in b'.entries
        && b'.entries[Walked(b, n).value] == b.entries[Walked(b, n).value].(counters := counts[n])
  }

  /** The first `n` entries, those before `off`, have been copied. */
  ghost predicate CopiedUpTo(b: Blob, counts: seq<Counters>, n: nat, off: nat, entries: map<nat, Entry>) {
    && n <= |counts| && Walked(b, n) == Some(off) && CountedAs(b, counts[..n], b.(entries := entries))
    && forall o :: o in entries && o >= off ==> entries[o] == b.entries[o]
  }

  lemma {:induction false} CopyOneMore(b: Blob, counts: seq<Counters>, n: nat, off: nat, entries: map<nat, Entry>)
    requires CopiedUpTo(b, counts, n, off, entries) && n < |counts| && Walked(b, |counts|).Some?
    ensures off in entries
    ensures CopiedUpTo(b, counts, n + 1, off + EntrySize(entries[off]),
                       entries[off := entries[off].(counters := counts[n])])
  {
    WalkedGrows(b, n, |counts|);
    WalkedNext(b, n, |counts|);
    hide Walked;
    NextCounted(b, counts, n, entries, entries[off := entries[off].(counters := counts[n])]);
    hide CountedAs;
  }

  /** Copies the table for the reader, with the counters as they stand now. */
  method CopyCounted(b: Blob, counts: seq<Counters>) returns (b': Blob)
    requires Walked(b, |counts|).Some?
    ensures CountedAs(b, counts, b')
  {
    var entries, off, n := b.entries, 0, 0;
    while n < |counts|
      invariant CopiedUpTo(b, counts, n, off, entries)
    {
      CopyOneMore(b, counts, n, off, entries);
      var size := EntrySize(entries[off]);
      entries := entries[off := entries[off].(counters := counts[n])];
      off := off + size;
      n := n + 1;
    }
    assert counts[..n] == counts;
    b' := b.(entries := entries);
  }

  lemma {:induction false} NextCounted(b: Blob, counts: seq<Counters>, n: nat, entries: map<nat, Entry>,
                                       entries': map<nat, Entry>)
    requires n < |counts| && Walked(b, |counts|).Some? && Walked(b, n).Some? && Walked(b, n).value in b.entries
    requires CountedAs(b, counts[..n], b.(entries := entries))
    requires entries[Walked(b, n).value] == b.entries[Walked(b, n).value]
    requires entries' == entries[Walked(b, n).value := entries[Walked(b, n).value].(counters := counts[n])]
    ensures CountedAs(b, counts[..n + 1], b.(entries := entries'))
  {
    hide Walked;
    assert entries'.Keys == entries.Keys;
    forall m | 0 <= m < n + 1
      ensures Walked(b, m).Some? && Walked(b, m).value in b.entries && Walked(b, m).value in entries'
      ensures entries'[Walked(b, m).value] == b.entries[Walked(b, m).value].(counters := counts[m])
    {
      if m < n {
        assert counts[..n][m] == counts[m];
        WalkedGrows(b, m, n);
      }
    }
  }

  // ---------------------------------------------------------------------- counters do not change a table

  function RecountedRule(r: RuleHead, counts: seq<Counters>, n: nat): (r': RuleHead)
    ensures r' == r.(entry := r.entry.(counters := r'.entry.counters))
  {
    if n < |counts| then r.(entry := r.entry.(counters := counts[n])) else r
  }

  /** Chain `c`, whose first entry has number `num`, with the counters `counts`. */
  function RecountedChain(c: ChainHead, counts: seq<Counters>, num: nat): (c': ChainHead)
    ensures |c'.rules| == |c.rules| && c' == c.(rules := c'.rules, counters := c'.counters)
    ensures forall i {:trigger c'.rules[i]} :: 0 <= i < |c.rules| ==>
      c'.rules[i] == RecountedRule(c.rules[i], counts, num + HeadCount(c) + i)
  {
    c.(rules := seq(|c.rules|, i requires 0 <= i < |c.rules| =>
         RecountedRule(c.rules[i], counts, num + HeadCount(c) + i)),
       counters := var n := num + HeadCount(c) + |c.rules|; if n < |counts| then counts[n] else c.counters)
  }

  function Recounted(cs: seq<ChainHead>, counts: seq<Counters>): (cs': seq<ChainHead>)
    ensures |cs'| == |cs|
    ensures forall k {:trigger cs'[k]} :: 0 <= k < |cs| ==> cs'[k] == RecountedChain(cs[k], counts, BaseCount(cs, k))
  {
    seq(|cs|, k requires 0 <= k < |cs| => RecountedChain(cs[k], counts, BaseCount(cs, k)))
  }

  /** Packets are never counted at error nodes. */
  ghost predicate Quiet(cs: seq<ChainHead>, counts: seq<Counters>) {
    && |counts| == TableCount(cs) && counts[|counts| - 1] == ZERO_COUNTERS
    && forall k {:trigger BaseCount(cs, k)} :: 0 <= k < |cs| && cs[k].hook == 0 ==>
         BaseCount(cs, k) < |counts| && counts[BaseCount(cs, k)] == ZERO_COUNTERS
  }

  /** Whether entry number `n` is an error node. */
  predicate IsErrorNode(b: Blob, n: nat) {
    match Walked(b, n)
    case None => false
    case Some(off) => off in b.entries && b.entries[off].target.name == ERROR_TARGET
  }

  /** What `n` entries of a table count when entry `i` is passed as often as `passed(i)` says: no walk leads to
      an error node. */
  function Growth(b: Blob, passed: nat -> Counters, n: nat): (g: seq<Counters>)
    ensures |g| == n
  {
    seq(n, i requires 0 <= i < n => if IsErrorNode(b, i) then ZERO_COUNTERS else passed(i))
  }

  lemma {:induction false} HeadIsErrorNode(cs: seq<ChainHead>, b: Blob, k: nat)
    requires Compiled(cs, b) && k < |cs| && cs[k].hook == 0
    ensures IsErrorNode(b, BaseCount(cs, k)) && BaseCount(cs, k) < TableCount(cs)
  {
    BaseMonotone(cs, k, |cs|);
    WalkedToChain(cs, b, k);
    UserHeadLies(cs, b, k);
    hide Compiled, Walked, BaseCount, Base;
  }

  /** Traffic is quiet at error nodes. */
  lemma {:induction false} GrowthIsQuiet(cs: seq<ChainHead>, b: Blob, passed: nat -> Counters)
    requires Compiled(cs, b)
    ensures Quiet(cs, Growth(b, passed, TableCount(cs)))
  {
    WalkedToEnd(cs, b);
    hide Compiled, Walked, BaseCount;
    assert IsErrorNode(b, TableCount(cs) - 1);
    forall k {:trigger BaseCount(cs, k)} | 0 <= k < |cs| && cs[k].hook == 0
      ensures BaseCount(cs, k) < TableCount(cs) && IsErrorNode(b, BaseCount(cs, k))
    {
      HeadIsErrorNode(cs, b, k);
    }
  }

  /** Rules and policies count all that pass them. */
  lemma {:induction false} SpotCounts(cs: seq<ChainHead>, b: Blob, p: Spot)
    requires Compiled(cs, b) && PoliciesOk(cs) && SpotOk(cs, p)
    ensures !IsErrorNode(b, BaseCount(cs, p.chain) + HeadCount(cs[p.chain]) + p.rule)
  {
    WalkedTo(cs, b, p.chain, p.rule);
    EntryRead(cs, b, p.chain, p.rule);
    hide Compiled, Walked, BaseCount;
  }

  lemma {:induction false} RecountedSizes(rules: seq<RuleHead>, rules': seq<RuleHead>, n: nat)
    requires n <= |rules| == |rules'| && forall i :: 0 <= i < n ==> rules'[i].size == rules[i].size
    ensures SizeUpTo(rules', n) == SizeUpTo(rules, n)
  {
    if n > 0 { RecountedSizes(rules, rules', n - 1); }
  }

  lemma {:induction false} RecountedBases(cs: seq<ChainHead>, counts: seq<Counters>, k: nat)
    requires k <= |cs|
    ensures Base(Recounted(cs, counts), k) == Base(cs, k) && BaseCount(Recounted(cs, counts), k) == BaseCount(cs, k)
  {
    hide Recounted, RecountedChain, RecountedRule;
    if k > 0 {
      RecountedBases(cs, counts, k - 1);
      RecountedSizes(cs[k - 1].rules, Recounted(cs, counts)[k - 1].rules, |cs[k - 1].rules|);
    }
  }

  lemma {:induction false} RecountedPlaced(cs: seq<ChainHead>, counts: seq<Counters>)
    requires Placed(cs)
    ensures Placed(Recounted(cs, counts))
  {
    var cs' := Recounted(cs, counts);
    forall k | 0 <= k < |cs'| ensures ChainPlaced(cs'[k], Base(cs', k), BaseCount(cs', k)) {
      assert ChainPlaced(cs[k], Base(cs, k), BaseCount(cs, k));
      RecountedBases(cs, counts, k);
      forall i | 0 <= i <= |cs[k].rules| ensures SizeUpTo(cs'[k].rules, i) == SizeUpTo(cs[k].rules, i) {
        RecountedSizes(cs[k].rules, cs'[k].rules, i);
      }
    }
  }

  lemma {:induction false} RecountedAbs(cs: seq<ChainHead>, counts: seq<Counters>)
    ensures Abs(Recounted(cs, counts)) == Abs(cs)
  {
    var cs' := Recounted(cs, counts);
    forall k | 0 <= k < |cs| ensures AbsChain(cs'[k]) == AbsChain(cs[k]) {
      forall i | 0 <= i < |cs[k].rules| ensures AbsRule(cs'[k].rules[i]) == AbsRule(cs[k].rules[i]) {
      }
      assert Map(cs'[k].rules, AbsRule) == Map(cs[k].rules, AbsRule);
    }
  }

  lemma {:induction false} RecountedRules(cs: seq<ChainHead>, counts: seq<Counters>)
    requires KindsOk(cs) && SizesOk(cs) && Ready(cs) && VerdictsOk(cs)
    ensures KindsOk(Recounted(cs, counts)) && SizesOk(Recounted(cs, counts))
    ensures Ready(Recounted(cs, counts)) && VerdictsOk(Recounted(cs, counts))
  {
    var cs' := Recounted(cs, counts);
    forall k, i | 0 <= k < |cs'| && 0 <= i < |cs'[k].rules|
      ensures KindOk(cs'[k].rules[i]) && SizeOk(cs'[k].rules[i]) && ReadyRule(cs'[k].rules[i])
      ensures VerdictOk(cs', cs'[k].rules[i])
    {
      var r := cs[k].rules[i];
      assert KindOk(r) && SizeOk(r) && ReadyRule(r) && VerdictOk(cs, r);
      RecountedVerdict(cs, counts, r, cs'[k].rules[i]);
    }
  }

  lemma {:induction false} RecountedVerdict(cs: seq<ChainHead>, counts: seq<Counters>, r: RuleHead, r': RuleHead)
    requires VerdictOk(cs, r) && r' == r.(entry := r.entry.(counters := r'.entry.counters))
    ensures VerdictOk(Recounted(cs, counts), r')
  {
    if r.kind.Jump? {
      var j :| 0 <= j < |cs| && cs[j].name == r.kind.target && cs[j].hook == 0
               && r.entry.target.verdict == cs[j].headOffset + HEAD_SIZE;
      assert Recounted(cs, counts)[j].name == cs[j].name;
    }
  }

  lemma {:induction false} CopiedAt(b: Blob, counts: seq<Counters>, b': Blob, n: nat, off: nat, e: Entry)
    requires CountedAs(b, counts, b') && n < |counts| && Walked(b, n) == Some(off) && EntryAt(b.entries, off, e)
    ensures EntryAt(b'.entries, off, e.(counters := counts[n]))
  {
    hide Walked;
  }

  lemma {:induction false} SpotNumber(cs: seq<ChainHead>, counts: seq<Counters>, k: nat, j: nat)
    requires Quiet(cs, counts) && k < |cs| && j <= |cs[k].rules|
    ensures BaseCount(cs, k) + HeadCount(cs[k]) + j < |counts|
  {
    BaseMonotone(cs, k + 1, |cs|);
  }

  /** What lies in the copied blob at a place of the chains. */
  lemma {:induction false} CopiedEntry(cs: seq<ChainHead>, b: Blob, counts: seq<Counters>, b': Blob, k: nat, j: nat)
    requires Compiled(cs, b) && Quiet(cs, counts) && CountedAs(b, counts, b') && k < |cs| && j <= |cs[k].rules|
    ensures BaseCount(cs, k) + HeadCount(cs[k]) + j < |counts|
    ensures EntryAt(b'.entries, Offset(cs, Spot(k, j)),
      EntryOfChain(cs[k], j).(counters := counts[BaseCount(cs, k) + HeadCount(cs[k]) + j]))
  {
    SpotNumber(cs, counts, k, j);
    WalkedTo(cs, b, k, j);
    EntryOf(cs, b, Spot(k, j));
    hide Compiled, Quiet, CountedAs, Walked, Offset, Base, BaseCount, EntryAt;
    CopiedAt(b, counts, b', BaseCount(cs, k) + HeadCount(cs[k]) + j, Offset(cs, Spot(k, j)), EntryOfChain(cs[k], j));
  }

  lemma {:induction false} CopiedHead(cs: seq<ChainHead>, b: Blob, counts: seq<Counters>, b': Blob, k: nat)
    requires Compiled(cs, b) && Quiet(cs, counts) && CountedAs(b, counts, b') && k < |cs| && cs[k].hook == 0
    ensures EntryAt(b'.entries, cs[k].headOffset, HeadEntry(cs[k].name))
  {
    BaseMonotone(cs, k + 1, |cs|);
    WalkedToChain(cs, b, k);
    UserHeadLies(cs, b, k);
    assert ChainPlaced(cs[k], Base(cs, k), BaseCount(cs, k));
    hide Compiled, Walked, Base;
  }

  /** The copied blob holds the recounted chains. */
  lemma {:induction false} RecountedHeld(cs: seq<ChainHead>, b: Blob, counts: seq<Counters>, b': Blob, k: nat)
    requires k < |cs| && Compiled(cs, b) && Quiet(cs, counts) && CountedAs(b, counts, b')
    ensures HoldsChain(b'.entries, Recounted(cs, counts)[k]) && HookHeld(b', Recounted(cs, counts)[k])
  {
    hide *;
    var c, c' := cs[k], Recounted(cs, counts)[k];
    HookCopied(cs, b, counts, b', k);
    if c.hook == 0 {
      CopiedHead(cs, b, counts, b', k);
    }
    CopiedEntry(cs, b, counts, b', k, |c.rules|);
    LastCounter(c, counts, BaseCount(cs, k));
    forall i | 0 <= i < |c.rules| ensures EntryAt(b'.entries, c'.rules[i].offset, c'.rules[i].entry) {
      CopiedEntry(cs, b, counts, b', k, i);
      RuleCounter(c, counts, BaseCount(cs, k), i);
      AtRule(cs, k, i);
    }
    AtFoot(cs, k);
    HeldIn(b'.entries, c, c');
  }

  lemma {:induction false} AtRule(cs: seq<ChainHead>, k: nat, i: nat)
    requires k < |cs| && i < |cs[k].rules|
    ensures Offset(cs, Spot(k, i)) == cs[k].rules[i].offset && EntryOfChain(cs[k], i) == cs[k].rules[i].entry
  {
  }

  lemma {:induction false} AtFoot(cs: seq<ChainHead>, k: nat)
    requires k < |cs|
    ensures Offset(cs, Spot(k, |cs[k].rules|)) == cs[k].footOffset
            && EntryOfChain(cs[k], |cs[k].rules|) == FootOf(cs[k])
  {
  }

  lemma {:induction false} HeldIn(entries: map<nat, Entry>, c: ChainHead, c': ChainHead)
    requires c' == c.(rules := c'.rules, counters := c'.counters) && |c'.rules| == |c.rules|
    requires c.hook == 0 ==> EntryAt(entries, c.headOffset, HeadEntry(c.name))
    requires forall i :: 0 <= i < |c.rules| ==> EntryAt(entries, c'.rules[i].offset, c'.rules[i].entry)
    requires EntryAt(entries, c.footOffset, FootOf(c).(counters := c'.counters))
    ensures HoldsChain(entries, c')
  {
  }

  lemma {:induction false} HookCopied(cs: seq<ChainHead>, b: Blob, counts: seq<Counters>, b': Blob, k: nat)
    requires Compiled(cs, b) && CountedAs(b, counts, b') && k < |cs|
    ensures HookHeld(b', Recounted(cs, counts)[k])
  {
    assert HookHeld(b, cs[k]);
    hide Compiled, Recounted, RecountedChain, BaseCount;
  }

  lemma {:induction false} RuleCounter(c: ChainHead, counts: seq<Counters>, num: nat, i: nat)
    requires num + HeadCount(c) + i < |counts| && i < |c.rules|
    ensures RecountedChain(c, counts, num).rules[i] == c.rules[i].(entry := c.rules[i].entry.(
      counters := counts[num + HeadCount(c) + i]))
  {
  }

  lemma {:induction false} LastCounter(c: ChainHead, counts: seq<Counters>, num: nat)
    requires num + HeadCount(c) + |c.rules| < |counts|
    ensures RecountedChain(c, counts, num).counters == counts[num + HeadCount(c) + |c.rules|]
  {
  }

  lemma {:induction false} CopiedLast(cs: seq<ChainHead>, b: Blob, counts: seq<Counters>, b': Blob)
    requires Compiled(cs, b) && Quiet(cs, counts) && CountedAs(b, counts, b')
    ensures b'.size == TableSize(cs) && EntryAt(b'.entries, b'.size - HEAD_SIZE, HeadEntry(ERROR_TARGET))
    ensures |b'.entries| == TableCount(cs)
  {
    WalkedToEnd(cs, b);
    assert b.size == TableSize(cs);
    hide Compiled, Walked;
    assert |b'.entries| == |b'.entries.Keys| == |b.entries.Keys| == |b.entries|;
    assert counts[TableCount(cs) - 1] == ZERO_COUNTERS;
  }

  lemma {:induction false} RecountedImage(cs: seq<ChainHead>, b: Blob, counts: seq<Counters>, b': Blob)
    requires Compiled(cs, b) && Quiet(cs, counts) && CountedAs(b, counts, b')
    ensures IsImage(b', Recounted(cs, counts))
  {
    hide Compiled, HookHeld, HoldsChain, Walked, Recounted, RecountedChain, Quiet, CountedAs, EntryAt, Base, BaseCount;
    CopiedLast(cs, b, counts, b');
    RecountedBases(cs, counts, |cs|);
    RecountedHooks(cs, b, counts, b');
    forall k | 0 <= k < |cs|
      ensures HoldsChain(b'.entries, Recounted(cs, counts)[k]) && HookHeld(b', Recounted(cs, counts)[k])
    {
      RecountedHeld(cs, b, counts, b', k);
    }
  }

  lemma {:induction false} CompiledHooks(cs: seq<ChainHead>, b: Blob)
    requires Compiled(cs, b)
    ensures forall i :: i in b.hooks ==> HookUsed(cs, |cs|, i + 1)
  {
    assert HooksUpTo(b, cs, |cs|);
  }

  lemma {:induction false} HooksCarry(cs: seq<ChainHead>, cs': seq<ChainHead>, hooks: map<nat, nat>)
    requires |cs'| == |cs| && forall k :: 0 <= k < |cs| ==> cs'[k].hook == cs[k].hook
    requires forall i :: i in hooks ==> HookUsed(cs, |cs|, i + 1)
    ensures forall i :: i in hooks ==> HookUsed(cs', |cs|, i + 1)
  {
    forall i | i in hooks ensures HookUsed(cs', |cs|, i + 1) {
      assert HookUsed(cs, |cs|, i + 1);
      var k :| 0 <= k < |cs| && cs[k].hook == i + 1;
      assert cs'[k].hook == i + 1;
    }
  }

  lemma {:induction false} SameHooks(b: Blob, counts: seq<Counters>, b': Blob)
    requires CountedAs(b, counts, b')
    ensures b'.hooks == b.hooks
  {
  }

  lemma {:induction false} RecountedHooks(cs: seq<ChainHead>, b: Blob, counts: seq<Counters>, b': Blob)
    requires Compiled(cs, b) && CountedAs(b, counts, b')
    ensures forall i :: i in b'.hooks ==> HookUsed(Recounted(cs, counts), |cs|, i + 1)
  {
    hide *;
    CompiledHooks(cs, b);
    SameHooks(b, counts, b');
    forall k | 0 <= k < |cs| ensures Recounted(cs, counts)[k].hook == cs[k].hook {
      assert Recounted(cs, counts)[k] == RecountedChain(cs[k], counts, BaseCount(cs, k));
    }
    HooksCarry(cs, Recounted(cs, counts), b.hooks);
  }

  /** A table is still the image of the same ruleset after any packets have been counted. */
  lemma {:induction false} CountingKeepsMeaning(cs: seq<ChainHead>, b: Blob, counts: seq<Counters>, b': Blob)
    requires Compiled(cs, b) && PoliciesOk(cs) && Quiet(cs, counts) && CountedAs(b, counts, b')
    ensures Compiled(Recounted(cs, counts), b') && PoliciesOk(Recounted(cs, counts))
    ensures Abs(Recounted(cs, counts)) == Abs(cs) && TableCount(Recounted(cs, counts)) == TableCount(cs)
  {
    RecountedImage(cs, b, counts, b');
    assert Placed(cs) && KindsOk(cs) && SizesOk(cs) && Ready(cs) && VerdictsOk(cs) && WellFormed(Abs(cs));
    hide IsImage, Compiled;
    RecountedPlaced(cs, counts);
    RecountedAbs(cs, counts);
    RecountedRules(cs, counts);
    RecountedBases(cs, counts, |cs|);
    CompiledOf(Recounted(cs, counts), b');
  }

  lemma {:induction false} CompiledOf(cs: seq<ChainHead>, b: Blob)
    requires WellFormed(Abs(cs)) && KindsOk(cs) && SizesOk(cs) && Ready(cs)
    requires Placed(cs) && VerdictsOk(cs) && IsImage(b, cs)
    ensures Compiled(cs, b)
  {
  }

  lemma {:induction false} RecountedCounts(cs: seq<ChainHead>, counts: seq<Counters>, k: nat)
    requires Quiet(cs, counts) && k <= |cs|
    ensures BaseCount(cs, k) < |counts|
    ensures CountsUpTo(Recounted(cs, counts), k) == counts[..BaseCount(cs, k)]
  {
    hide *;
    CountsRoom(cs, counts, k);
    if k > 0 {
      RecountedCounts(cs, counts, k - 1);
      RecountedPart(cs, counts, k - 1);
      BaseMonotone(cs, k - 1, k);
      CountsNext(cs, counts, k - 1);
    }
  }

  lemma {:induction false} CountsRoom(cs: seq<ChainHead>, counts: seq<Counters>, k: nat)
    requires Quiet(cs, counts) && k <= |cs|
    ensures BaseCount(cs, k) < |counts|
    ensures k == 0 ==> CountsUpTo(Recounted(cs, counts), k) == counts[..BaseCount(cs, k)]
  {
    BaseMonotone(cs, k, |cs|);
  }

  /** The counters read with the copy are those that the kernel had counted. */
  lemma {:induction false} RecountedAll(cs: seq<ChainHead>, counts: seq<Counters>)
    requires Quiet(cs, counts)
    ensures CountsUpTo(Recounted(cs, counts), |cs|) + [ZERO_COUNTERS] == counts
  {
    RecountedCounts(cs, counts, |cs|);
    hide Recounted, CountsUpTo;
    LastQuiet(cs, counts);
  }

  lemma {:induction false} RecountedPart(cs: seq<ChainHead>, counts: seq<Counters>, k: nat)
    requires Quiet(cs, counts) && k < |cs|
    ensures BaseCount(cs, k + 1) < |counts|
    ensures ChainCounts(Recounted(cs, counts)[k]) == counts[BaseCount(cs, k)..BaseCount(cs, k + 1)]
  {
    BaseMonotone(cs, k + 1, |cs|);
    RecountedChainCounts(cs[k], counts, BaseCount(cs, k));
    hide Recounted, RecountedChain, ChainCounts;
  }

  lemma {:induction false} CountsNext(cs: seq<ChainHead>, counts: seq<Counters>, k: nat)
    requires k < |cs| && BaseCount(cs, k + 1) <= |counts|
    requires BaseCount(cs, k) <= |counts| && CountsUpTo(Recounted(cs, counts), k) == counts[..BaseCount(cs, k)]
    requires BaseCount(cs, k) <= BaseCount(cs, k + 1)
    requires ChainCounts(Recounted(cs, counts)[k]) == counts[BaseCount(cs, k)..BaseCount(cs, k + 1)]
    ensures CountsUpTo(Recounted(cs, counts), k + 1) == counts[..BaseCount(cs, k + 1)]
  {
    hide Recounted, RecountedChain, ChainCounts, BaseCount;
    var lo, hi := BaseCount(cs, k), BaseCount(cs, k + 1);
    assert counts[..lo] + counts[lo..hi] == counts[..hi];
  }

  lemma {:induction false} LastQuiet(cs: seq<ChainHead>, counts: seq<Counters>)
    requires Quiet(cs, counts)
    ensures counts[..BaseCount(cs, |cs|)] + [ZERO_COUNTERS] == counts
  {
    assert counts == counts[..|counts| - 1] + [counts[|counts| - 1]];
  }

  lemma {:induction false} RecountedChainCounts(c: ChainHead, counts: seq<Counters>, lo: nat)
    requires lo + ChainCount(c) <= |counts| && (c.hook == 0 ==> counts[lo] == ZERO_COUNTERS)
    ensures ChainCounts(RecountedChain(c, counts, lo)) == counts[lo..lo + ChainCount(c)]
  {
  }
}
