/** Parsing a compiled table gives the table back. */
module RoundTrip {
  import opened Names
  import opened Seqs
  import opened Rulesets
  import opened Cache
  import opened HandleFacts
  import opened Layout
  import opened Compiler
  import opened Walk
  import P = Parser

  // -------------------------------------------------------------- what the first pass makes of chains

  /** A rule after the first pass: jumps are unresolved, the counter comes from the rule's own place. */
  function ReadRule(r: RuleHead): RuleHead {
    r.(kind := if r.kind.Jump? then Jump("") else r.kind, counterMap := NormalMap(r.index))
  }

  function FootRule(c: ChainHead): RuleHead {
    RuleHead(Standard, FootOf(c), FOOT_SIZE, NormalMap(c.footIndex), c.footIndex, c.footOffset)
  }

  /** The rules of a chain and its foot, which is read as a rule at first. */
  function ReadRules(c: ChainHead): (rs: seq<RuleHead>)
    ensures |rs| == |c.rules| + 1
  {
    Map(c.rules, ReadRule) + [FootRule(c)]
  }

  /** The index of a placed chain's first entry. */
  function NumOf(c: ChainHead): nat {
    if c.footIndex < HeadCount(c) + |c.rules| then 0 else c.footIndex - HeadCount(c) - |c.rules|
  }

  /** A chain of which `j` entries after the head have been read. */
  function Open(c: ChainHead, j: nat): ChainHead
    requires j <= |c.rules| + 1
  {
    NewChain(c.name, c.hook).(headOffset := c.headOffset, index := NumOf(c), rules := ReadRules(c)[..j], numRules := j)
  }

  /** A chain whose foot has become its policy. */
  function Closed(c: ChainHead): ChainHead {
    NewChain(c.name, c.hook).(headOffset := c.headOffset, index := NumOf(c),
      rules := Map(c.rules, ReadRule), numRules := |c.rules|,
      verdict := FootOf(c).target.verdict, counters := c.counters, counterMap := NormalMap(c.footIndex),
      footIndex := c.footIndex + 1, footOffset := c.footOffset)
  }

  function ClosedUpTo(cs: seq<ChainHead>, k: nat): (ps: seq<ChainHead>)
    requires k <= |cs|
    ensures |ps| == k && forall i {:trigger ps[i]} :: 0 <= i < k ==> ps[i] == Closed(cs[i])
  {
    seq(k, i requires 0 <= i < k => Closed(cs[i]))
  }

  function ChainCounts(c: ChainHead): (ns: seq<Counters>)
    ensures |ns| == ChainCount(c)
  {
    (if c.hook > 0 then [] else [ZERO_COUNTERS]) + Map(c.rules, (r: RuleHead) => r.entry.counters) + [c.counters]
  }

  /** The counters of the first `k` chains as they lie in the blob. */
  function CountsUpTo(cs: seq<ChainHead>, k: nat): (ns: seq<Counters>)
    requires k <= |cs|
  {
    if k == 0 then [] else CountsUpTo(cs, k - 1) + ChainCounts(cs[k - 1])
  }

  /** The first pass after `j` entries behind the head of chain `k`. */
  function InChain(cs: seq<ChainHead>, k: nat, j: nat): P.State
    requires k < |cs| && j <= |cs[k].rules| + 1
  {
    P.State(ClosedUpTo(cs, k) + [Open(cs[k], j)], Some(k), UserCount(cs[..k + 1]),
            NumOf(cs[k]) + HeadCount(cs[k]) + j,
            CountsUpTo(cs, k) + ChainCounts(cs[k])[..HeadCount(cs[k]) + j])
  }

  /** The first pass in front of chain `k`. */
  function Before(cs: seq<ChainHead>, k: nat): P.State
    requires k <= |cs|
  {
    if k == 0 then P.START else InChain(cs, k - 1, |cs[k - 1].rules| + 1)
  }

  /** The first pass in front of chain `k`, with the chain before it closed. */
  function Between(cs: seq<ChainHead>, k: nat, num: nat): P.State
    requires k <= |cs|
  {
    P.State(ClosedUpTo(cs, k), if k == 0 then None else Some(k - 1), UserCount(cs[..k]), num, CountsUpTo(cs, k))
  }

  lemma {:induction false} NumIs(cs: seq<ChainHead>, k: nat)
    requires Placed(cs) && k < |cs|
    ensures NumOf(cs[k]) == BaseCount(cs, k) && cs[k].footIndex == NumOf(cs[k]) + HeadCount(cs[k]) + |cs[k].rules|
  {
    assert ChainPlaced(cs[k], Base(cs, k), BaseCount(cs, k));
  }

  lemma {:induction false} UserCountStep(cs: seq<ChainHead>, k: nat)
    requires k < |cs|
    ensures UserCount(cs[..k + 1]) == UserCount(cs[..k]) + if cs[k].hook == 0 then 1 else 0
  {
    assert cs[..k + 1][..k] == cs[..k];
  }

  // --------------------------------------------------------------------------------- single steps

  /** The chain being read gives up its last rule. */
  lemma {:induction false} CloseOne(ps: seq<ChainHead>, c: ChainHead, numChains: nat, num: nat, counts: seq<Counters>)
    requires num == c.footIndex + 1
    ensures P.DelPolicy(P.State(ps + [Open(c, |c.rules| + 1)], Some(|ps|), numChains, num, counts))
         == P.Go(P.State(ps + [Closed(c)], Some(|ps|), numChains, num, counts))
  {
    var o := Open(c, |c.rules| + 1);
    assert o.rules == ReadRules(c);
    assert ReadRules(c)[..|c.rules|] == Map(c.rules, ReadRule);
    assert (ps + [o])[|ps| := Closed(c)] == ps + [Closed(c)];
  }

  /** Closing the chain before `k`. */
  lemma {:induction false} CloseBefore(cs: seq<ChainHead>, k: nat)
    requires Placed(cs) && k <= |cs|
    ensures P.DelPolicy(Before(cs, k)) == P.Go(Between(cs, k, BaseCount(cs, k)))
  {
    if k > 0 {
      var c := cs[k - 1];
      NumIs(cs, k - 1);
      var p := Before(cs, k);
      assert ChainCounts(c)[..HeadCount(c) + |c.rules| + 1] == ChainCounts(c);
      CloseOne(ClosedUpTo(cs, k - 1), c, p.numChains, p.num, p.counts);
      assert ClosedUpTo(cs, k - 1) + [Closed(c)] == ClosedUpTo(cs, k);
      assert BaseCount(cs, k) == BaseCount(cs, k - 1) + ChainCount(c);
    } else {
      assert ClosedUpTo(cs, 0) == [];
    }
  }

  /** Where the next chain goes: always behind the chains read before it. */
  lemma {:induction false} NextGoesLast(cs: seq<ChainHead>, k: nat)
    requires Ordered(Abs(cs)) && 0 < k < |cs| && cs[k].hook == 0
    ensures Compare(cs[k].name, cs[k - 1].name) > 0 || Place(Abs(ClosedUpTo(cs, k)), cs[k].name) == k
  {
    AbsAt(cs, k);
    AbsAt(cs, k - 1);
    if cs[k - 1].hook == 0 {
      assert Abs(cs)[k - 1].hook == 0 && Less(Abs(cs)[k - 1].name, Abs(cs)[k].name);
      Antisymmetric(cs[k].name, cs[k - 1].name);
    } else {
      NoUsersYet(cs, k);
    }
  }

  lemma {:induction false} NoUsersYet(cs: seq<ChainHead>, k: nat)
    requires Ordered(Abs(cs)) && 0 < k <= |cs| && cs[k - 1].hook > 0
    ensures forall name :: Place(Abs(ClosedUpTo(cs, k)), name) == k
  {
    var ps := ClosedUpTo(cs, k);
    AbsAt(cs, k - 1);
    assert |Abs(ps)| == k;
    forall j | 0 <= j < k ensures Abs(ps)[j].hook > 0 {
      AbsAt(ps, j);
      AbsAt(cs, j);
      assert Abs(ps)[j].hook == Abs(cs)[j].hook;
    }
    forall name ensures Place(Abs(ps), name) == k {
      assert Place(Abs(ps), name) <= k;
    }
  }

  /** Opening chain `k`. */
  lemma {:induction false} OpenBehind(cs: seq<ChainHead>, k: nat, numChains: nat)
    requires Placed(cs) && Ordered(Abs(cs)) && k < |cs|
    ensures P.AddChain(Before(cs, k).(numChains := numChains), NewChain(cs[k].name, cs[k].hook), cs[k].headOffset)
         == P.Go(P.State(ClosedUpTo(cs, k) + [Open(cs[k], 0)], Some(k), numChains, NumOf(cs[k]), CountsUpTo(cs, k)))
  {
    var c := cs[k];
    CloseBefore(cs, k);
    NumIs(cs, k);
    var q := Between(cs, k, BaseCount(cs, k)).(numChains := numChains);
    assert P.DelPolicy(Before(cs, k).(numChains := numChains)) == P.Go(q);
    var c' := NewChain(c.name, c.hook).(headOffset := c.headOffset, index := q.num);
    assert ReadRules(c)[..0] == [];
    assert c' == Open(c, 0);
    if c.hook == 0 && k > 0 {
      NextGoesLast(cs, k);
    }
    assert InsertAt(q.chains, |q.chains|, c') == q.chains + [c'];
  }

  /** The entry of rule `j` of a chain, or of its foot. */
  function EntryOfChain(c: ChainHead, j: nat): Entry
    requires j <= |c.rules|
  {
    if j < |c.rules| then c.rules[j].entry else FootOf(c)
  }

  lemma {:induction false} RuleRead(cs: seq<ChainHead>, b: Blob, p: Spot, r: RuleHead)
    requires SpotOk(cs, p) && p.rule < |cs[p.chain].rules| && EntryTells(cs, b, p)
    requires r == cs[p.chain].rules[p.rule] && KindOk(r) && SizeOk(r) && ReadyRule(r)
    requires r.kind.Jump? ==> r.entry.target.verdict >= 0
    ensures r.entry.target.name != ERROR_TARGET
    ensures P.KindOf(r.entry, Offset(cs, p)) == Some(ReadRule(r).kind)
  {
  }

  lemma {:induction false} FootRead(c: ChainHead, off: nat)
    requires c.hook > 0 ==> c.verdict < 0
    ensures P.KindOf(FootOf(c), off) == Some(Standard) && FootOf(c).target.name != ERROR_TARGET
  {
  }

  /** An entry of a chain, read as a rule, is what `ReadRules` says. */
  lemma {:induction false} EntryRead(cs: seq<ChainHead>, b: Blob, k: nat, j: nat)
    requires Compiled(cs, b) && PoliciesOk(cs) && k < |cs| && j <= |cs[k].rules|
    ensures EntryAt(b.entries, Offset(cs, Spot(k, j)), EntryOfChain(cs[k], j))
    ensures EntryOfChain(cs[k], j).target.name != ERROR_TARGET
    ensures P.KindOf(EntryOfChain(cs[k], j), Offset(cs, Spot(k, j))) == Some(ReadRules(cs[k])[j].kind)
  {
    var p, c := Spot(k, j), cs[k];
    EntryOf(cs, b, p);
    if j < |c.rules| {
      EntriesTell(cs, b, p);
      assert KindOk(c.rules[j]) && SizeOk(c.rules[j]) && ReadyRule(c.rules[j]);
      RuleRead(cs, b, p, c.rules[j]);
    } else {
      FootRead(c, Offset(cs, p));
    }
  }

  /** Size, index and offset of an entry read are those that were laid out. */
  lemma {:induction false} EntryPlaced(cs: seq<ChainHead>, k: nat, j: nat)
    requires Placed(cs) && SizesOk(cs) && k < |cs| && j <= |cs[k].rules|
    ensures var r := ReadRules(cs[k])[j];
      && r.entry == EntryOfChain(cs[k], j) && r.size == EntrySize(EntryOfChain(cs[k], j))
      && r.counterMap == NormalMap(r.index) && r.index == NumOf(cs[k]) + HeadCount(cs[k]) + j
      && r.offset == Offset(cs, Spot(k, j))
    ensures EntryOfChain(cs[k], j).counters == ChainCounts(cs[k])[HeadCount(cs[k]) + j]
  {
    var c := cs[k];
    assert ChainPlaced(c, Base(cs, k), BaseCount(cs, k));
    NumIs(cs, k);
    if j < |c.rules| {
      assert SizeOk(c.rules[j]);
      assert ReadRules(c)[j] == ReadRule(c.rules[j]);
      assert c.rules[j].index == BaseCount(cs, k) + HeadCount(c) + j;
    }
  }

  /** Where the entry after an entry lies. */
  lemma {:induction false} EntryEnd(cs: seq<ChainHead>, k: nat, j: nat)
    requires Placed(cs) && SizesOk(cs) && k < |cs| && j <= |cs[k].rules|
    ensures Offset(cs, Spot(k, j)) + EntrySize(EntryOfChain(cs[k], j))
         == if j < |cs[k].rules| then Offset(cs, Spot(k, j + 1)) else Base(cs, k + 1)
  {
    if j < |cs[k].rules| {
      assert SizeOk(cs[k].rules[j]);
      NextOffset(cs, Spot(k, j));
    } else {
      OffsetIs(cs, Spot(k, j));
    }
  }

  lemma {:induction false} EntryEnds(cs: seq<ChainHead>, b: Blob, k: nat, j: nat)
    requires Compiled(cs, b) && k < |cs| && j <= |cs[k].rules|
    ensures Offset(cs, Spot(k, j)) + EntrySize(EntryOfChain(cs[k], j))
         == if j < |cs[k].rules| then Offset(cs, Spot(k, j + 1)) else Base(cs, k + 1)
  {
    EntryEnd(cs, k, j);
  }

  lemma {:induction false} NoOtherHook(cs: seq<ChainHead>, b: Blob, k: nat, j: nat, m: nat)
    requires Compiled(cs, b) && k < |cs| && j <= |cs[k].rules| && m < |cs| && cs[m].hook > 0 && (k, j) != (m, 0)
    ensures Offset(cs, Spot(m, 0)) != Offset(cs, Spot(k, j))
  {
    assert SpotOk(cs, Spot(m, 0)) && SpotOk(cs, Spot(k, j));
    assert Placed(cs) && SizesOk(cs) by { hide Placed, SizesOk, IsImage; }
    hide Compiled, Placed, Offset;
    if Offset(cs, Spot(m, 0)) == Offset(cs, Spot(k, j)) { OffsetsDiffer(cs, Spot(m, 0), Spot(k, j)); }
  }

  lemma {:induction false} HooksOfImage(cs: seq<ChainHead>, b: Blob)
    requires Compiled(cs, b)
    ensures Placed(cs) && HooksUpTo(b, cs, |cs|) && forall k :: 0 <= k < |cs| ==> cs[k].hook <= NUM_HOOKS
  {
    Heads(cs);
    hide Placed, HooksUpTo, HoldsUpTo;
  }

  /** Hooks lead to the first places of builtin chains and nowhere else. */
  lemma {:induction false} HookFound(cs: seq<ChainHead>, b: Blob, k: nat, j: nat)
    requires Compiled(cs, b) && k < |cs| && j <= |cs[k].rules|
    ensures P.HookAt(b, Offset(cs, Spot(k, j))) == if j == 0 then cs[k].hook else 0
  {
    var off := Offset(cs, Spot(k, j));
    var h := P.HookAt(b, off);
    HooksOfImage(cs, b);
    hide Compiled, Placed, Offset;
    if h > 0 {
      assert HookUsed(cs, |cs|, h);
      var m :| 0 <= m < |cs| && cs[m].hook == h;
      assert HookHeld(b, cs[m]);
      FirstOffset(cs, m);
      if (k, j) != (m, 0) { NoOtherHook(cs, b, k, j, m); }
    } else if j == 0 && cs[k].hook > 0 {
      assert HookHeld(b, cs[k]);
      FirstOffset(cs, k);
    }
  }

  /** Every place of a chain lies before the next chain. */
  lemma {:induction false} BeforeNextChain(cs: seq<ChainHead>, k: nat, j: nat)
    requires Placed(cs) && SizesOk(cs) && k < |cs| && j <= |cs[k].rules|
    ensures Offset(cs, Spot(k, j)) < Base(cs, k + 1)
  {
    OffsetIs(cs, Spot(k, j));
    SizeUpToMonotone(cs[k].rules, j, |cs[k].rules|);
    hide Placed, SizesOk, SizeUpTo, Offset;
  }

  /** Every chain ends before the last entry of the blob. */
  lemma {:induction false} ChainsBeforeEnd(cs: seq<ChainHead>, k: nat)
    requires k < |cs|
    ensures Base(cs, k + 1) < TableSize(cs)
    ensures cs[k].hook == 0 ==> Base(cs, k) + HEAD_SIZE < TableSize(cs)
  {
    hide SizeUpTo;
    BaseMonotone(cs, k + 1, |cs|);
  }

  /** No entry of a chain is the last one of the blob. */
  lemma {:induction false} NotTheEnd(cs: seq<ChainHead>, b: Blob, k: nat, j: nat)
    requires Compiled(cs, b) && k < |cs| && j <= |cs[k].rules|
    ensures (if j < |cs[k].rules| then Offset(cs, Spot(k, j + 1)) else Base(cs, k + 1)) < b.size
    ensures Offset(cs, Spot(k, j)) < b.size
    ensures cs[k].hook == 0 ==> Base(cs, k) + HEAD_SIZE < b.size
  {
    assert Placed(cs) && SizesOk(cs) && b.size == TableSize(cs)
        by { hide Placed, SizesOk, HoldsUpTo, HooksUpTo, TableSize; }
    hide *;
    ChainsBeforeEnd(cs, k);
    BeforeNextChain(cs, k, j);
    if j < |cs[k].rules| { BeforeNextChain(cs, k, j + 1); }
  }

  /** Appending one more entry of a chain. */
  lemma {:induction false} OpenOneMore(cs: seq<ChainHead>, k: nat, j: nat)
    requires k < |cs| && j <= |cs[k].rules|
    ensures InChain(cs, k, j).chains[k := Open(cs[k], j + 1)] == InChain(cs, k, j + 1).chains
    ensures Open(cs[k], j + 1).rules == Open(cs[k], j).rules + [ReadRules(cs[k])[j]]
    ensures InChain(cs, k, j + 1).counts == InChain(cs, k, j).counts + [ChainCounts(cs[k])[HeadCount(cs[k]) + j]]
  {
    var c, h := cs[k], HeadCount(cs[k]);
    assert ReadRules(c)[..j + 1] == ReadRules(c)[..j] + [ReadRules(c)[j]];
    assert ChainCounts(c)[..h + j + 1] == ChainCounts(c)[..h + j] + [ChainCounts(c)[h + j]];
  }

  /** Adding the next entry as a rule. */
  lemma {:induction false} AddRuleRead(cs: seq<ChainHead>, b: Blob, k: nat, j: nat)
    requires Compiled(cs, b) && PoliciesOk(cs) && k < |cs| && j <= |cs[k].rules|
    ensures P.Counted(P.AddRule(InChain(cs, k, j), EntryOfChain(cs[k], j), Offset(cs, Spot(k, j))),
                      EntryOfChain(cs[k], j))
         == P.Go(InChain(cs, k, j + 1))
  {
    EntryRead(cs, b, k, j);
    EntryPlaced(cs, k, j);
    OpenOneMore(cs, k, j);
    RuleAdded(cs, k, j, EntryOfChain(cs[k], j), Offset(cs, Spot(k, j)));
  }

  lemma {:induction false} RuleAdded(cs: seq<ChainHead>, k: nat, j: nat, e: Entry, off: nat)
    requires k < |cs| && j <= |cs[k].rules|
    requires P.KindOf(e, off) == Some(ReadRules(cs[k])[j].kind)
    requires ReadRules(cs[k])[j] == RuleHead(ReadRules(cs[k])[j].kind, e, EntrySize(e),
      NormalMap(NumOf(cs[k]) + HeadCount(cs[k]) + j), NumOf(cs[k]) + HeadCount(cs[k]) + j, off)
    requires InChain(cs, k, j).chains[k := Open(cs[k], j + 1)] == InChain(cs, k, j + 1).chains
    requires Open(cs[k], j + 1).rules == Open(cs[k], j).rules + [ReadRules(cs[k])[j]]
    requires InChain(cs, k, j + 1).counts == InChain(cs, k, j).counts + [e.counters]
    ensures P.Counted(P.AddRule(InChain(cs, k, j), e, off), e) == P.Go(InChain(cs, k, j + 1))
  {
    var p := InChain(cs, k, j);
    assert p.chains[k] == Open(cs[k], j);
  }

  // ---------------------------------------------------------------------------------- whole chains

  /** Reading on from any entry of chain `k` leads to the chain's end. */
  lemma {:induction false} ReadOn(cs: seq<ChainHead>, b: Blob, k: nat, j: nat, off: nat, end: nat)
    requires Compiled(cs, b) && PoliciesOk(cs) && k < |cs| && j <= |cs[k].rules|
    requires cs[k].hook == 0 || j > 0
    requires off == Offset(cs, Spot(k, j)) && end == Base(cs, k + 1)
    ensures P.ReadFrom(b, InChain(cs, k, j), off) == P.ReadFrom(b, Before(cs, k + 1), end)
    decreases |cs[k].rules| - j
  {
    hide *;
    HookFound(cs, b, k, j);
    if j < |cs[k].rules| {
      var next := ReadOne(cs, b, k, j, InChain(cs, k, j), off);
      ReadOn(cs, b, k, j + 1, next, end);
    } else {
      BeforeNext(cs, k);
      var next := ReadOne(cs, b, k, j, InChain(cs, k, j), off);
    }
  }

  lemma {:induction false} EntryAdded(cs: seq<ChainHead>, b: Blob, k: nat, j: nat)
    requires Compiled(cs, b) && PoliciesOk(cs) && k < |cs| && j <= |cs[k].rules|
    requires P.HookAt(b, Offset(cs, Spot(k, j))) == 0
    ensures EntryAt(b.entries, Offset(cs, Spot(k, j)), EntryOfChain(cs[k], j)) && Offset(cs, Spot(k, j)) < b.size
    ensures P.AddEntry(b, InChain(cs, k, j), EntryOfChain(cs[k], j), Offset(cs, Spot(k, j)))
            == P.Go(InChain(cs, k, j + 1))
  {
    EntryRead(cs, b, k, j);
    NotTheEnd(cs, b, k, j);
    EntryEnds(cs, b, k, j);
    AddRuleRead(cs, b, k, j);
    hide Compiled, Offset, EntryOfChain, InChain, Base, P.AddRule, P.HookAt, P.DelPolicy, EntrySize;
  }

  /** Reading the entry at rule `j` of chain `k` when that leads to the state after it. */
  lemma {:induction false} ReadOne(cs: seq<ChainHead>, b: Blob, k: nat, j: nat, p: P.State, off: nat)
    returns (next: nat)
    requires Compiled(cs, b) && PoliciesOk(cs) && k < |cs| && j <= |cs[k].rules|
    requires off == Offset(cs, Spot(k, j)) && P.HookAt(b, off) == 0 && p == InChain(cs, k, j)
    ensures next == if j < |cs[k].rules| then Offset(cs, Spot(k, j + 1)) else Base(cs, k + 1)
    ensures P.ReadFrom(b, p, off) == P.ReadFrom(b, InChain(cs, k, j + 1), next)
  {
    hide *;
    EntryAdded(cs, b, k, j);
    EntryEnds(cs, b, k, j);
    next := off + EntrySize(EntryOfChain(cs[k], j));
    ReadEntry(b, p, off, EntryOfChain(cs[k], j), InChain(cs, k, j + 1));
  }

  /** One entry of the first pass. */
  lemma {:induction false} ReadEntry(b: Blob, p: P.State, off: nat, e: Entry, q: P.State)
    requires EntryAt(b.entries, off, e) && off < b.size && P.AddEntry(b, p, e, off) == P.Go(q)
    ensures P.ReadFrom(b, p, off) == P.ReadFrom(b, q, off + EntrySize(e))
  {
  }

  lemma {:induction false} HeadIsHead(b: Blob, p: P.State, name: Name, off: nat)
    requires off + HEAD_SIZE < b.size
    ensures P.AddEntry(b, p, HeadEntry(name), off)
         == P.Counted(P.AddChain(p.(numChains := p.numChains + 1), NewChain(name, 0), off), HeadEntry(name))
  {
  }

  lemma {:induction false} BuiltinIsHook(b: Blob, p: P.State, e: Entry, off: nat, hook: nat, q: P.State)
    requires off + EntrySize(e) < b.size && e.target.name != ERROR_TARGET
    requires P.HookAt(b, off) == hook && 0 < hook <= NUM_HOOKS
    requires P.AddChain(p, NewChain(HOOK_NAMES[hook - 1], hook), off) == P.Go(q)
    ensures P.AddEntry(b, p, e, off) == P.Counted(P.AddRule(q, e, off), e)
  {
  }

  lemma {:induction false} UserHeadLies(cs: seq<ChainHead>, b: Blob, k: nat)
    requires Compiled(cs, b) && k < |cs| && cs[k].hook == 0
    ensures EntryAt(b.entries, Base(cs, k), HeadEntry(cs[k].name))
    ensures Base(cs, k) + HEAD_SIZE < b.size && Offset(cs, Spot(k, 0)) == Base(cs, k) + HEAD_SIZE
  {
    assert ChainPlaced(cs[k], Base(cs, k), BaseCount(cs, k));
    assert HoldsChain(b.entries, cs[k]);
    OffsetIs(cs, Spot(k, 0));
    NotTheEnd(cs, b, k, 0);
  }

  lemma {:induction false} ReadUserHead(cs: seq<ChainHead>, b: Blob, k: nat, off: nat)
    requires Placed(cs) && Ordered(Abs(cs)) && k < |cs| && cs[k].hook == 0 && off == Base(cs, k)
    requires EntryAt(b.entries, off, HeadEntry(cs[k].name)) && off + HEAD_SIZE < b.size
    ensures P.ReadFrom(b, Before(cs, k), off) == P.ReadFrom(b, InChain(cs, k, 0), off + HEAD_SIZE)
  {
    HeadAdded(cs, k);
    HeadIsHead(b, Before(cs, k), cs[k].name, off);
    ReadEntry(b, Before(cs, k), off, HeadEntry(cs[k].name), InChain(cs, k, 0));
  }

  lemma {:induction false} UsersBefore(cs: seq<ChainHead>, k: nat)
    requires k <= |cs|
    ensures Before(cs, k).numChains == UserCount(cs[..k])
  {
  }

  /** The error node in front of a user chain opens the chain. */
  lemma {:induction false} HeadAdded(cs: seq<ChainHead>, k: nat)
    requires Placed(cs) && Ordered(Abs(cs)) && k < |cs| && cs[k].hook == 0
    ensures P.Counted(P.AddChain(Before(cs, k).(numChains := Before(cs, k).numChains + 1),
                                 NewChain(cs[k].name, 0), Base(cs, k)), HeadEntry(cs[k].name))
         == P.Go(InChain(cs, k, 0))
  {
    assert ChainPlaced(cs[k], Base(cs, k), BaseCount(cs, k));
    UsersBefore(cs, k);
    UserCountStep(cs, k);
    OpenBehind(cs, k, UserCount(cs[..k + 1]));
    assert ChainCounts(cs[k])[..1] == [ZERO_COUNTERS];
  }

  /** The first entry of a builtin chain opens the chain and is read as a rule. */
  lemma {:induction false} BuiltinOpened(cs: seq<ChainHead>, k: nat)
    requires Placed(cs) && Ordered(Abs(cs)) && k < |cs| && cs[k].hook > 0
    ensures P.AddChain(Before(cs, k), NewChain(cs[k].name, cs[k].hook), Offset(cs, Spot(k, 0)))
         == P.Go(InChain(cs, k, 0))
  {
    FirstOffset(cs, k);
    UsersBefore(cs, k);
    UserCountStep(cs, k);
    OpenBehind(cs, k, UserCount(cs[..k]));
    assert ChainCounts(cs[k])[..0] == [];
    assert CountsUpTo(cs, k) + [] == CountsUpTo(cs, k);
    assert Before(cs, k).(numChains := UserCount(cs[..k])) == Before(cs, k);
  }

  lemma {:induction false} HookIsNamed(cs: seq<ChainHead>, b: Blob, k: nat)
    requires Compiled(cs, b) && k < |cs| && cs[k].hook > 0
    ensures cs[k].hook <= NUM_HOOKS && HOOK_NAMES[cs[k].hook - 1] == cs[k].name
    ensures P.AddChain(Before(cs, k), NewChain(cs[k].name, cs[k].hook), Offset(cs, Spot(k, 0)))
            == P.Go(InChain(cs, k, 0))
  {
    AbsAt(cs, k);
    assert Abs(cs)[k].hook == cs[k].hook && Abs(cs)[k].name == cs[k].name;
    BuiltinOpened(cs, k);
  }

  lemma {:induction false} BuiltinFirstAdded(cs: seq<ChainHead>, b: Blob, k: nat, off: nat)
    requires Compiled(cs, b) && PoliciesOk(cs) && k < |cs| && cs[k].hook > 0 && off == Offset(cs, Spot(k, 0))
    ensures EntryAt(b.entries, off, EntryOfChain(cs[k], 0)) && off < b.size
    ensures P.AddEntry(b, Before(cs, k), EntryOfChain(cs[k], 0), off) == P.Go(InChain(cs, k, 1))
  {
    hide *;
    HookIsNamed(cs, b, k);
    EntryRead(cs, b, k, 0);
    HookFound(cs, b, k, 0);
    NotTheEnd(cs, b, k, 0);
    EntryEnds(cs, b, k, 0);
    AddRuleRead(cs, b, k, 0);
    BuiltinIsHook(b, Before(cs, k), EntryOfChain(cs[k], 0), off, cs[k].hook, InChain(cs, k, 0));
  }

  lemma {:induction false} PlacedInOrder(cs: seq<ChainHead>, b: Blob)
    requires Compiled(cs, b)
    ensures Placed(cs) && Ordered(Abs(cs))
  {
  }

  lemma {:induction false} ReadBuiltin(cs: seq<ChainHead>, b: Blob, k: nat, off: nat, end: nat)
    requires Compiled(cs, b) && PoliciesOk(cs) && k < |cs| && cs[k].hook > 0
    requires off == Offset(cs, Spot(k, 0)) && end == Base(cs, k + 1)
    ensures P.ReadFrom(b, Before(cs, k), off) == P.ReadFrom(b, Before(cs, k + 1), end)
  {
    hide *;
    EntryEnds(cs, b, k, 0);
    BuiltinFirstAdded(cs, b, k, off);
    ReadEntry(b, Before(cs, k), off, EntryOfChain(cs[k], 0), InChain(cs, k, 1));
    BeforeNext(cs, k);
    if |cs[k].rules| > 0 {
      ReadOn(cs, b, k, 1, off + EntrySize(EntryOfChain(cs[k], 0)), end);
    }
  }

  lemma {:induction false} BeforeNext(cs: seq<ChainHead>, k: nat)
    requires k < |cs|
    ensures Before(cs, k + 1) == InChain(cs, k, |cs[k].rules| + 1)
  {
  }

  lemma {:induction false} ReadUser(cs: seq<ChainHead>, b: Blob, k: nat, off: nat, end: nat)
    requires Compiled(cs, b) && PoliciesOk(cs) && k < |cs| && cs[k].hook == 0
    requires off == Base(cs, k) && end == Base(cs, k + 1)
    ensures P.ReadFrom(b, Before(cs, k), off) == P.ReadFrom(b, Before(cs, k + 1), end)
  {
    hide *;
    UserHeadLies(cs, b, k);
    PlacedInOrder(cs, b);
    ReadUserHead(cs, b, k, off);
    ReadOn(cs, b, k, 0, off + HEAD_SIZE, end);
  }

  lemma {:induction false} ReadChain(cs: seq<ChainHead>, b: Blob, k: nat, off: nat, end: nat)
    requires Compiled(cs, b) && PoliciesOk(cs) && k < |cs| && off == Base(cs, k) && end == Base(cs, k + 1)
    ensures P.ReadFrom(b, Before(cs, k), off) == P.ReadFrom(b, Before(cs, k + 1), end)
  {
    if cs[k].hook > 0 {
      OffsetIs(cs, Spot(k, 0));
      ReadBuiltin(cs, b, k, off, end);
    } else {
      ReadUser(cs, b, k, off, end);
    }
  }

  lemma {:induction false} StartOfAll(cs: seq<ChainHead>)
    ensures Before(cs, 0) == P.START && Base(cs, 0) == 0
  {
  }

  lemma {:induction false} ReadChains(cs: seq<ChainHead>, b: Blob, k: nat)
    requires Compiled(cs, b) && PoliciesOk(cs) && k <= |cs|
    ensures P.ReadFrom(b, P.START, 0) == P.ReadFrom(b, Before(cs, k), Base(cs, k))
  {
    hide Compiled, PoliciesOk, Before, P.ReadFrom, Base;
    StartOfAll(cs);
    if k > 0 {
      ReadChains(cs, b, k - 1);
      ReadChain(cs, b, k - 1, Base(cs, k - 1), Base(cs, k));
    }
  }

  /** The first pass over a compiled blob reads all chains, in order. */
  lemma {:induction false} ReadAll(cs: seq<ChainHead>, b: Blob)
    requires Compiled(cs, b) && PoliciesOk(cs)
    ensures P.ReadFrom(b, P.START, 0)
         == P.Go(P.State(ClosedUpTo(cs, |cs|), None, UserCount(cs), TableCount(cs),
                         CountsUpTo(cs, |cs|) + [ZERO_COUNTERS]))
  {
    ReadChains(cs, b, |cs|);
    CloseBefore(cs, |cs|);
    assert cs[..|cs|] == cs;
    var off, e := Base(cs, |cs|), HeadEntry(ERROR_TARGET);
    var last := Between(cs, |cs|, TableCount(cs)).(cur := None, counts := CountsUpTo(cs, |cs|) + [ZERO_COUNTERS]);
    assert P.AddEntry(b, Before(cs, |cs|), e, off) == P.Go(last);
    ReadEntry(b, Before(cs, |cs|), off, e, last);
  }
}
