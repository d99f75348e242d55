/** The second pass over a compiled table, and what the handle then holds. */
module Reread {
  import opened Names
  import opened Seqs
  import opened Rulesets
  import opened Editing
  import opened Cache
  import opened HandleFacts
  import opened Handles
  import opened Layout
  import opened Compiler
  import opened Walk
  import opened RoundTrip
  import P = Parser

  // ------------------------------------------------------------------------------- the second pass

  /** A rule after both passes. */
  function FinalRule(r: RuleHead): RuleHead { r.(counterMap := NormalMap(r.index)) }

  /** A chain after both passes: references are the calls that there are. */
  function FinalChain(rs: Ruleset, c: ChainHead): ChainHead {
    Closed(c).(rules := Map(c.rules, FinalRule), references := Calls(rs, c.name))
  }

  function Final(cs: seq<ChainHead>): (fs: seq<ChainHead>)
    ensures |fs| == |cs| && forall k {:trigger fs[k]} :: 0 <= k < |cs| ==> fs[k] == FinalChain(Abs(cs), cs[k])
  {
    seq(|cs|, k requires 0 <= k < |cs| => FinalChain(Abs(cs), cs[k]))
  }

  /** The offset behind the error node of user chain `j` lies in that chain's bytes and in no other's. */
  lemma {:induction false} JumpFindsChain(cs: seq<ChainHead>, j: nat)
    requires Placed(cs) && j < |cs| && cs[j].hook == 0
    ensures P.ChainAt(ClosedUpTo(cs, |cs|), cs[j].headOffset + HEAD_SIZE) == Some(j)
  {
    var ps, off := ClosedUpTo(cs, |cs|), cs[j].headOffset + HEAD_SIZE;
    assert ChainPlaced(cs[j], Base(cs, j), BaseCount(cs, j));
    assert ps[j].headOffset == cs[j].headOffset && ps[j].footOffset == cs[j].footOffset;
    forall i | 0 <= i < j ensures !(ps[i].headOffset <= off <= ps[i].footOffset) {
      assert ChainPlaced(cs[i], Base(cs, i), BaseCount(cs, i));
      BaseMonotone(cs, i, j);
    }
    assert P.ChainAt(ps, off).Some?;
  }

  /** A compiled jump leads the second pass to the chain that it names. */
  lemma {:induction false} VerdictResolved(cs: seq<ChainHead>, r: RuleHead)
    requires Placed(cs) && NamesDiffer(Abs(cs)) && VerdictOk(cs, r)
    ensures P.ResolvedRule(ClosedUpTo(cs, |cs|), ReadRule(r)) == FinalRule(r)
    ensures !P.Lost(ClosedUpTo(cs, |cs|), ReadRule(r))
    ensures forall j :: 0 <= j < |cs| ==>
      P.Hits(ClosedUpTo(cs, |cs|), j)(ReadRule(r)) == IsCall(cs[j].name)(AbsRule(r))
  {
    if r.kind.Jump? {
      var j := VerdictFinds(cs, r);
      NamesTell(cs, j);
      hide Placed, VerdictOk, P.ChainAt, NamesDiffer;
      assert P.ChainAt(ClosedUpTo(cs, |cs|), ReadRule(r).entry.target.verdict) == Some(j);
    }
  }

  lemma {:induction false} VerdictFinds(cs: seq<ChainHead>, r: RuleHead) returns (j: nat)
    requires Placed(cs) && VerdictOk(cs, r) && r.kind.Jump?
    ensures j < |cs| && cs[j].name == r.kind.target
    ensures P.ChainAt(ClosedUpTo(cs, |cs|), r.entry.target.verdict) == Some(j)
  {
    j :| 0 <= j < |cs| && cs[j].name == r.kind.target && cs[j].hook == 0
         && r.entry.target.verdict == cs[j].headOffset + HEAD_SIZE;
    JumpFindsChain(cs, j);
  }

  lemma {:induction false} NamesTell(cs: seq<ChainHead>, j: nat)
    requires NamesDiffer(Abs(cs)) && j < |cs|
    ensures forall m :: 0 <= m < |cs| ==> (cs[m].name == cs[j].name <==> m == j)
  {
    Heads(cs);
  }

  lemma {:induction false} JumpResolved(cs: seq<ChainHead>, b: Blob, k: nat, i: nat)
    requires Compiled(cs, b) && k < |cs| && i < |cs[k].rules|
    ensures P.ResolvedRule(ClosedUpTo(cs, |cs|), ReadRule(cs[k].rules[i])) == FinalRule(cs[k].rules[i])
    ensures !P.Lost(ClosedUpTo(cs, |cs|), ReadRule(cs[k].rules[i]))
    ensures forall j :: 0 <= j < |cs| ==>
      P.Hits(ClosedUpTo(cs, |cs|), j)(ReadRule(cs[k].rules[i])) == IsCall(cs[j].name)(AbsRule(cs[k].rules[i]))
  {
    hide P.ResolvedRule, P.Lost, P.Hits, IsCall;
    assert VerdictOk(cs, cs[k].rules[i]);
    VerdictResolved(cs, cs[k].rules[i]);
  }

  lemma {:induction false} HitsAreCalls(cs: seq<ChainHead>, b: Blob, j: nat)
    requires Compiled(cs, b) && j < |cs|
    ensures Total(ClosedUpTo(cs, |cs|), P.HitsIn(ClosedUpTo(cs, |cs|), j)) == Calls(Abs(cs), cs[j].name)
  {
    var ps := ClosedUpTo(cs, |cs|);
    forall k | 0 <= k < |cs| ensures P.HitsIn(ps, j)(ps[k]) == CallsIn(cs[j].name)(Abs(cs)[k]) {
      AbsAt(cs, k);
      forall i | 0 <= i < |cs[k].rules|
        ensures P.Hits(ps, j)(ps[k].rules[i]) == IsCall(cs[j].name)(Abs(cs)[k].rules[i])
      {
        JumpResolved(cs, b, k, i);
        assert ps[k].rules[i] == ReadRule(cs[k].rules[i]);
      }
      TotalSame(ps[k].rules, Abs(cs)[k].rules, P.Hits(ps, j), IsCall(cs[j].name));
    }
    TotalSame(ps, Abs(cs), P.HitsIn(ps, j), CallsIn(cs[j].name));
  }

  lemma {:induction false} ChainResolved(cs: seq<ChainHead>, b: Blob, k: nat)
    requires Compiled(cs, b) && k < |cs|
    ensures P.ResolvedChain(ClosedUpTo(cs, |cs|), k) == FinalChain(Abs(cs), cs[k])
    ensures forall i :: 0 <= i < |cs[k].rules| ==>
      !P.Lost(ClosedUpTo(cs, |cs|), ClosedUpTo(cs, |cs|)[k].rules[i])
  {
    var ps := ClosedUpTo(cs, |cs|);
    HitsAreCalls(cs, b, k);
    forall i | 0 <= i < |cs[k].rules|
      ensures P.ResolvedRule(ps, ps[k].rules[i]) == FinalRule(cs[k].rules[i]) && !P.Lost(ps, ps[k].rules[i])
    {
      JumpResolved(cs, b, k, i);
      assert ps[k].rules[i] == ReadRule(cs[k].rules[i]);
    }
    assert P.ResolvedChain(ps, k).rules == FinalChain(Abs(cs), cs[k]).rules;
  }

  /** Parsing a compiled table gives all chains back, in order, with every jump resolved to the chain it
      named and every reference counted. */
  lemma {:induction false} ParseOfCompiled(cs: seq<ChainHead>, b: Blob)
    requires Compiled(cs, b) && PoliciesOk(cs)
    ensures P.ParseOf(b) == P.Parsed(Final(cs), UserCount(cs), CountsUpTo(cs, |cs|) + [ZERO_COUNTERS])
  {
    ReadAll(cs, b);
    var ps := ClosedUpTo(cs, |cs|);
    forall k, i | 0 <= k < |ps| && 0 <= i < |ps[k].rules| ensures !P.Lost(ps, ps[k].rules[i]) {
      ChainResolved(cs, b, k);
    }
    assert !P.HasLost(ps);
    forall k | 0 <= k < |cs| ensures P.Resolved(ps)[k] == Final(cs)[k] {
      ChainResolved(cs, b, k);
    }
    assert P.Resolved(ps) == Final(cs);
  }

  // ----------------------------------------------------------------------- what has been read is valid

  lemma {:induction false} FinalAbs(cs: seq<ChainHead>)
    requires PoliciesOk(cs)
    ensures Abs(Final(cs)) == Abs(cs)
  {
    var fs := Final(cs);
    forall k | 0 <= k < |cs| ensures AbsChain(fs[k]) == AbsChain(cs[k]) {
      forall i | 0 <= i < |cs[k].rules| ensures AbsRule(fs[k].rules[i]) == AbsRule(cs[k].rules[i]) {
        assert fs[k].rules[i] == FinalRule(cs[k].rules[i]);
      }
      assert Map(fs[k].rules, AbsRule) == Map(cs[k].rules, AbsRule);
    }
  }

  lemma {:induction false} FinalRulesOk(cs: seq<ChainHead>, b: Blob)
    requires Compiled(cs, b)
    ensures KindsOk(Final(cs)) && SizesOk(Final(cs)) && Ready(Final(cs))
  {
    var fs := Final(cs);
    forall k, i | 0 <= k < |fs| && 0 <= i < |fs[k].rules|
      ensures KindOk(fs[k].rules[i]) && SizeOk(fs[k].rules[i]) && ReadyRule(fs[k].rules[i])
    {
      assert fs[k].rules[i] == FinalRule(cs[k].rules[i]);
      assert KindOk(cs[k].rules[i]) && SizeOk(cs[k].rules[i]) && ReadyRule(cs[k].rules[i]);
    }
  }

  /** Rules whose indices count up from `base` take over each of these places once. */
  lemma {:induction false} RuleTakers(rules: seq<RuleHead>, base: nat, n: nat, p: nat)
    requires n <= |rules| && forall i :: 0 <= i < n ==> rules[i].counterMap == NormalMap(base + i)
    ensures Total(rules[..n], RuleMaps(p)) == if base <= p < base + n then 1 else 0
  {
    if n > 0 {
      RuleTakers(rules, base, n - 1, p);
      assert rules[..n][..n - 1] == rules[..n - 1];
    }
  }

  lemma {:induction false} ChainTakers(cs: seq<ChainHead>, k: nat, p: nat)
    requires Placed(cs) && k < |cs|
    ensures ChainMaps(p)(Final(cs)[k]) <= 1
    ensures p < BaseCount(cs, k) || p >= BaseCount(cs, k + 1) ==> ChainMaps(p)(Final(cs)[k]) == 0
  {
    var f, c := Final(cs)[k], cs[k];
    NumIs(cs, k);
    assert ChainPlaced(c, Base(cs, k), BaseCount(cs, k));
    forall i | 0 <= i < |f.rules| ensures f.rules[i].counterMap == NormalMap(NumOf(c) + HeadCount(c) + i) {
      assert f.rules[i] == FinalRule(c.rules[i]);
      assert c.rules[i].index == BaseCount(cs, k) + HeadCount(c) + i;
    }
    RuleTakers(f.rules, NumOf(c) + HeadCount(c), |f.rules|, p);
    assert f.rules[..|f.rules|] == f.rules;
  }

  lemma {:induction false} TakersUpTo(cs: seq<ChainHead>, k: nat, p: nat)
    requires Placed(cs) && k <= |cs|
    ensures Total(Final(cs)[..k], ChainMaps(p)) <= 1
    ensures p >= BaseCount(cs, k) ==> Total(Final(cs)[..k], ChainMaps(p)) == 0
  {
    if k > 0 {
      TakersUpTo(cs, k - 1, p);
      ChainTakers(cs, k - 1, p);
      assert Final(cs)[..k][..k - 1] == Final(cs)[..k - 1];
    }
  }

  lemma {:induction false} CountsLength(cs: seq<ChainHead>, k: nat)
    requires k <= |cs|
    ensures |CountsUpTo(cs, k)| == BaseCount(cs, k)
  {
    if k > 0 { CountsLength(cs, k - 1); }
  }

  /** The counters of chain `k` within those of the whole table. */
  lemma {:induction false} CountsAt(cs: seq<ChainHead>, k: nat, n: nat, i: nat)
    requires k < n <= |cs| && i < ChainCount(cs[k])
    ensures |CountsUpTo(cs, n)| == BaseCount(cs, n) && BaseCount(cs, k) + i < BaseCount(cs, n)
    ensures CountsUpTo(cs, n)[BaseCount(cs, k) + i] == ChainCounts(cs[k])[i]
  {
    CountsLength(cs, n);
    CountsLength(cs, n - 1);
    BaseMonotone(cs, k, n);
    if k < n - 1 {
      CountsAt(cs, k, n - 1, i);
    }
  }

  lemma {:induction false} FinalSlots(cs: seq<ChainHead>, k: nat)
    requires Placed(cs) && SizesOk(cs) && k < |cs|
    ensures ChainSlotsOk(Final(cs)[k], CountsUpTo(cs, |cs|) + [ZERO_COUNTERS])
  {
    var f, c, counts := Final(cs)[k], cs[k], CountsUpTo(cs, |cs|);
    NumIs(cs, k);
    CountsAt(cs, k, |cs|, HeadCount(c) + |c.rules|);
    forall i | 0 <= i < |f.rules|
      ensures SlotOk(f.rules[i].counterMap, f.rules[i].entry.counters, counts + [ZERO_COUNTERS])
    {
      assert f.rules[i] == FinalRule(c.rules[i]);
      EntryPlaced(cs, k, i);
      assert ReadRules(c)[i] == ReadRule(c.rules[i]);
      CountsAt(cs, k, |cs|, HeadCount(c) + i);
    }
  }

  lemma {:induction false} FinalTracked(cs: seq<ChainHead>)
    requires Placed(cs) && SizesOk(cs)
    ensures Tracked(Final(cs), CountsUpTo(cs, |cs|) + [ZERO_COUNTERS])
  {
    var fs := Final(cs);
    assert fs[..|cs|] == fs;
    forall p: nat ensures Takers(fs, p) <= 1 {
      TakersUpTo(cs, |cs|, p);
    }
    forall k | 0 <= k < |fs| ensures ChainSlotsOk(fs[k], CountsUpTo(cs, |cs|) + [ZERO_COUNTERS]) {
      FinalSlots(cs, k);
    }
  }

  /** What has been read from a compiled table is a valid table: the same ruleset, exact references and
      counts, and every counter traced to one place of the blob. */
  lemma {:induction false} FinalOk(cs: seq<ChainHead>, b: Blob)
    requires Compiled(cs, b) && PoliciesOk(cs)
    ensures Abs(Final(cs)) == Abs(cs)
    ensures ChainsOk(Final(cs), CountsUpTo(cs, |cs|) + [ZERO_COUNTERS])
    ensures UserCount(Final(cs)) == UserCount(cs) && Ready(Final(cs)) && PoliciesOk(Final(cs))
  {
    FinalAbs(cs);
    FinalRulesOk(cs, b);
    FinalTracked(cs);
    TotalSame(cs, Final(cs), IsUserHead(), IsUserHead());
  }

  /** Reading a table from the kernel: the handle stands for the ruleset that was compiled. */
  method ReadTable(b: Blob, ghost cs: seq<ChainHead>) returns (h: Handle)
    requires Compiled(cs, b) && PoliciesOk(cs)
    ensures fresh(h) && h.Valid() && !h.changed && h.Rules() == Abs(cs)
    ensures Ready(h.chains) && PoliciesOk(h.chains)
    ensures h.original == CountsUpTo(cs, |cs|) + [ZERO_COUNTERS] && h.chains == Final(cs)
  {
    ParseOfCompiled(cs, b);
    FinalOk(cs, b);
    var r := P.ParseTable(b);
    h := new Handle(r.chains, r.numChains, r.counts);
  }
}
