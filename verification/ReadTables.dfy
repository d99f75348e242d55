/** A handle on a table read from the kernel: whatever order the user chains come in, it is a valid handle, and what is
    compiled from it means what the kernel's table means. */
module ReadTables {
  import opened Names
  import opened Seqs
  import opened Rulesets
  import opened Cache
  import opened HandleFacts
  import opened Handles
  import opened Layout
  import opened Compiler
  import opened Walk
  import opened Reading
  import Reread
  import Snapshot
  import P = Parser
  import O = ParserOrder

  // --------------------------------------------------------------------------------- no chain twice

  lemma {:induction false} CountedOnce<T>(t: seq<T>, x: nat)
    requires x < |t| && forall j :: 0 <= j < |t| && j != x ==> t[j] != t[x]
    ensures multiset(t)[t[x]] == 1
  {
    var front, back := t[..x], t[x + 1..];
    assert t == front + [t[x]] + back;
    assert t[x] !in front && t[x] !in back;
  }

  lemma {:induction false} CountedTwice<T>(s: seq<T>, a: nat, c: nat)
    requires a < c < |s| && s[a] == s[c]
    ensures multiset(s)[s[a]] >= 2
  {
    var front, back := s[..c], s[c..];
    assert s == front + back;
    assert s[a] == front[a] && s[c] == back[0];
    assert s[a] in front && s[a] in back;
  }

  lemma {:induction false} NoTwice<T>(s: seq<T>, t: seq<T>, a: nat, c: nat)
    requires multiset(s) == multiset(t) && a < c < |s|
    requires forall x, z :: 0 <= x < z < |t| ==> t[x] != t[z]
    ensures s[a] != s[c]
  {
    if s[a] == s[c] {
      CountedTwice(s, a, c);
      var x := O.Among(s, t, a);
      CountedOnce(t, x);
    }
  }

  /** The beginning of the chain read into place `k`. */
  ghost predicate BeginsAt(b: Blob, n: nat, q: P.State, k: nat, x: nat) {
    var hs := O.Begins(b, if n > 0 then n - 1 else 0);
    && n > 0 && k < |q.chains| && x < |hs| && O.FirstRule(b, hs[x]) < NextOf(hs, x, n - 1) <= n - 1
    && q.chains[k] == O.WholeChain(b, hs[x], NextOf(hs, x, n - 1))
  }

  lemma {:induction false} BeginsAtIs(b: Blob, n: nat, q: P.State, k: nat, x: nat)
    ensures BeginsAt(b, n, q, k, x) <==>
      var hs := O.Begins(b, if n > 0 then n - 1 else 0);
      && n > 0 && k < |q.chains| && x < |hs| && O.FirstRule(b, hs[x]) < NextOf(hs, x, n - 1) <= n - 1
      && q.chains[k] == O.WholeChain(b, hs[x], NextOf(hs, x, n - 1))
  {
    hide O.Begins, O.FirstRule, O.WholeChain, NextOf;
  }

  lemma {:induction false} SomeBegin(b: Blob, n: nat, q: P.State, k: nat) returns (x: nat)
    requires KernelTable(b, n) && P.ReadFrom(b, P.START, 0) == P.Go(q) && k < |q.chains|
    ensures BeginsAt(b, n, q, k, x)
  {
    hide *;
    TableWalks(b, n);
    x := ChainRead(b, n, q, k);
    BeginsAtIs(b, n, q, k, x);
  }

  lemma {:induction false} WholeDiffer(b: Blob, n: nat, x: nat, z: nat)
    requires KernelTable(b, n) && O.Filled(b, O.Begins(b, n - 1)) && x < z < |O.Begins(b, n - 1)|
    requires O.FirstRule(b, O.Begins(b, n - 1)[|O.Begins(b, n - 1)| - 1]) < n - 1
    ensures O.ChainsWhole(b, O.Begins(b, n - 1), n - 1)[x] != O.ChainsWhole(b, O.Begins(b, n - 1), n - 1)[z]
  {
    hide *;
    var hs := O.Begins(b, n - 1);
    TableSorts(b, n);
    WholeAtPlace(b, hs, n - 1, x);
    WholeAtPlace(b, hs, n - 1, z);
    WholeParts(b, hs[x], NextOf(hs, x, n - 1), 0);
    WholeParts(b, hs[z], NextOf(hs, z, n - 1), 0);
    if O.NameNo(b, hs[x]) == O.NameNo(b, hs[z]) {
      NamesTell(b, hs, x, z);
    }
  }

  /** Different places hold chains with different beginnings. */
  lemma {:induction false} BeginsDiffer(b: Blob, n: nat, q: P.State, k: nat, l: nat, x: nat, z: nat)
    requires KernelTable(b, n) && P.ReadFrom(b, P.START, 0) == P.Go(q) && k < l
    requires BeginsAt(b, n, q, k, x) && BeginsAt(b, n, q, l, z)
    ensures x != z
  {
    TableWalks(b, n);
    O.NothingIsLost(b, n, q);
    var hs := O.Begins(b, n - 1);
    hide KernelTable, P.ReadFrom, O.Begins, O.WholeChain, O.ChainsWhole, O.Filled, O.FirstRule, NextOf;
    var whole := O.ChainsWhole(b, hs, n - 1);
    forall y, w | 0 <= y < w < |whole| ensures whole[y] != whole[w] {
      WholeDiffer(b, n, y, w);
    }
    NoTwice(q.chains, whole, k, l);
  }

  /** Names tell the chains that have been read apart. */
  lemma {:induction false} NamesApart(b: Blob, n: nat, q: P.State, k: nat, l: nat)
    requires KernelTable(b, n) && P.ReadFrom(b, P.START, 0) == P.Go(q) && k < l < |q.chains|
    ensures q.chains[k].name != q.chains[l].name
  {
    hide *;
    var x := SomeBegin(b, n, q, k);
    var z := SomeBegin(b, n, q, l);
    BeginsDiffer(b, n, q, k, l, x, z);
    TableSorts(b, n);
    TitleAt(b, n, q, k, x);
    TitleAt(b, n, q, l, z);
    if q.chains[k].name == q.chains[l].name {
      NamesTell(b, O.Begins(b, n - 1), x, z);
    }
  }

  lemma {:induction false} TitleAt(b: Blob, n: nat, q: P.State, k: nat, x: nat)
    requires n > 0 && BeginsAt(b, n, q, k, x)
    ensures k < |q.chains| && x < |O.Begins(b, n - 1)|
    ensures q.chains[k].name == O.NameNo(b, O.Begins(b, n - 1)[x])
    ensures q.chains[k].hook == O.HookNo(b, O.Begins(b, n - 1)[x])
  {
    hide *;
    BeginsAtIs(b, n, q, k, x);
    WholeParts(b, O.Begins(b, n - 1)[x], NextOf(O.Begins(b, n - 1), x, n - 1), 0);
  }

  // -------------------------------------------------------------------------------- names and hooks

  lemma {:induction false} TitlesOk(b: Blob, n: nat, x: nat)
    requires KernelTable(b, n) && x < |O.Begins(b, n - 1)|
    ensures O.NameNo(b, O.Begins(b, n - 1)[x]) != ""
  {
    hide IsJump, JumpsToChain, O.Sortable, EndsWell, P.ReadFrom, Snapshot.Walked, O.Begins, NextOf, O.NameNo;
  }

  lemma {:induction false} HookNamed(b: Blob, i: nat)
    ensures O.HookNo(b, i) <= NUM_HOOKS
    ensures O.HookNo(b, i) > 0 ==> O.NameNo(b, i) == HOOK_NAMES[O.HookNo(b, i) - 1]
  {
    hide O.OffsetNo, O.EntryNo;
  }

  lemma {:induction false} ChainNamed(b: Blob, n: nat, q: P.State, k: nat)
    requires KernelTable(b, n) && P.ReadFrom(b, P.START, 0) == P.Go(q) && k < |q.chains|
    ensures q.chains[k].name != "" && q.chains[k].hook <= NUM_HOOKS
    ensures q.chains[k].hook > 0 ==> q.chains[k].name == HOOK_NAMES[q.chains[k].hook - 1]
  {
    hide *;
    TableWalks(b, n);
    var x := SomeBegin(b, n, q, k);
    TitleAt(b, n, q, k, x);
    TitlesOk(b, n, x);
    HookNamed(b, O.Begins(b, n - 1)[x]);
  }

  /** Names, order and hooks of the chains that are read. */
  lemma {:induction false} ReadNames(b: Blob, n: nat, q: P.State)
    requires KernelTable(b, n) && P.ReadFrom(b, P.START, 0) == P.Go(q)
    ensures NamesDiffer(Abs(P.Resolved(q.chains))) && HooksOk(Abs(P.Resolved(q.chains)))
  {
    var cs := P.Resolved(q.chains);
    NamesKept(q.chains);
    Policies(cs);
    forall k | 0 <= k < |q.chains|
      ensures q.chains[k].name != "" && q.chains[k].hook <= NUM_HOOKS
      ensures q.chains[k].hook > 0 ==> q.chains[k].name == HOOK_NAMES[q.chains[k].hook - 1]
    {
      ChainNamed(b, n, q, k);
    }
    forall k, l | 0 <= k < l < |q.chains| ensures q.chains[k].name != q.chains[l].name {
      NamesApart(b, n, q, k, l);
    }
    hide Abs, P.Resolved, KernelTable, P.ReadFrom;
  }

  lemma {:induction false} Policies(cs: seq<ChainHead>)
    ensures |Abs(cs)| == |cs| && forall k :: 0 <= k < |cs| && Abs(cs)[k].hook == 0 ==> Abs(cs)[k].policy == RETURN
  {
    Heads(cs);
    forall k | 0 <= k < |cs| && Abs(cs)[k].hook == 0 ensures Abs(cs)[k].policy == RETURN {
      AbsAt(cs, k);
    }
  }

  // ------------------------------------------------------------------------------------------ rules

  lemma {:induction false} KindSizes(e: Entry, off: nat)
    ensures P.KindOf(e, off).Some? && !P.KindOf(e, off).value.Module? ==> IsStandardSized(e.target)
  {
    hide EntrySize;
  }

  /** What is known of a rule that has been read, before its jump is resolved. */
  lemma {:induction false} RuleKnown(b: Blob, n: nat, q: P.State, k: nat, r: nat) returns (y: nat)
    requires KernelTable(b, n) && P.ReadFrom(b, P.START, 0) == P.Go(q) && k < |q.chains| && r < |q.chains[k].rules|
    ensures q.chains[k].rules[r] == O.RuleNo(b, y) && y + 1 < n && O.EntryNo(b, y).target.name != ERROR_TARGET
    ensures P.KindOf(O.EntryNo(b, y), O.OffsetNo(b, y)) == Some(O.RuleNo(b, y).kind)
    ensures O.RuleNo(b, y).entry == O.EntryNo(b, y) && (O.RuleNo(b, y).kind.Jump? ==> IsJump(b, y))
  {
    hide *;
    TableWalks(b, n);
    var x := ChainRead(b, n, q, k);
    var i, j := O.Begins(b, n - 1)[x], NextOf(O.Begins(b, n - 1), x, n - 1);
    y := O.FirstRule(b, i) + r;
    WholeParts(b, i, j, r);
    InsideNoError(b, n, x, y);
    RuleHasKind(b, n, q, y);
    KindMeans(O.EntryNo(b, y), O.OffsetNo(b, y));
    JumpIs(b, y);
  }

  /** All that a handle asks of a rule. */
  lemma {:induction false} RuleGood(b: Blob, n: nat, q: P.State, k: nat, r: nat)
    requires KernelTable(b, n) && P.ReadFrom(b, P.START, 0) == P.Go(q) && k < |q.chains| && r < |q.chains[k].rules|
    ensures var cs := P.Resolved(q.chains);
      && |cs| == |q.chains| && |cs[k].rules| == |q.chains[k].rules|
      && KindOk(cs[k].rules[r]) && SizeOk(cs[k].rules[r]) && ReadyRule(cs[k].rules[r])
      && RuleOk(Abs(cs), AbsRule(cs[k].rules[r]))
  {
    hide *;
    var cs, rule := P.Resolved(q.chains), q.chains[k].rules[r];
    ResolvedAt(q.chains, k, r);
    var y := RuleKnown(b, n, q, k, r);
    var e := O.EntryNo(b, y);
    KindMeans(e, O.OffsetNo(b, y));
    KindSizes(e, O.OffsetNo(b, y));
    RuleSize(b, y);
    if rule.kind.Jump? {
      var at := JumpKnown(b, n, q, y);
      ChainNamed(b, n, q, at);
      RuleGoodBy(q.chains, rule, at);
    } else {
      RuleGoodBy(q.chains, rule, 0);
    }
  }

  lemma {:induction false} RuleSize(b: Blob, y: nat)
    ensures SizeOk(O.RuleNo(b, y)) && O.RuleNo(b, y).entry == O.EntryNo(b, y)
  {
    hide O.EntryNo, O.OffsetNo, P.KindOf;
  }

  /** A jump is resolved to a user chain. */
  lemma {:induction false} JumpKnown(b: Blob, n: nat, q: P.State, y: nat) returns (at: nat)
    requires KernelTable(b, n) && P.ReadFrom(b, P.START, 0) == P.Go(q) && y + 1 < n && IsJump(b, y)
    ensures at < |q.chains| && P.ChainAt(q.chains, O.EntryNo(b, y).target.verdict) == Some(at) && q.chains[at].hook == 0
    ensures IsUser(Abs(P.Resolved(q.chains)), q.chains[at].name)
  {
    hide *;
    TableWalks(b, n);
    var v, m, hs := O.EntryNo(b, y).target.verdict, n - 1, O.Begins(b, n - 1);
    var j := JumpedTo(b, n, y);
    UserFirst(b, j);
    UserHook(b, j);
    var x := BeginsAll(b, m, j);
    var i := ChainIsRead(b, n, q, x);
    var end := NextOf(hs, x, m);
    WholeParts(b, j, end, 0);
    Between(b, n, j, end);
    O.JumpsFollow(b, n, q, i, v);
    at := P.ChainAt(q.chains, v).value;
    NamesKept(q.chains);
    UserIs(Abs(P.Resolved(q.chains)), at);
  }

  lemma {:induction false} UserHook(b: Blob, j: nat)
    requires O.IsError(b, j)
    ensures O.HookNo(b, j) == 0
  {
  }

  lemma {:induction false} UserIs(rs: Ruleset, k: nat)
    requires k < |rs| && rs[k].hook == 0
    ensures IsUser(rs, rs[k].name)
  {
  }

  lemma {:induction false} RuleGoodBy(qs: seq<ChainHead>, r: RuleHead, at: nat)
    requires SizeOk(r) && r.entry.target.name != ERROR_TARGET
    requires !r.kind.Module? ==> IsStandardSized(r.entry.target)
    requires match r.kind
      case Standard => r.entry.target.name == STANDARD_TARGET && r.entry.target.verdict < 0
      case Module => r.entry.target.name != STANDARD_TARGET
      case Fallthrough => r.entry.target.name == STANDARD_TARGET
      case Jump(_) =>
        && at < |qs| && P.ChainAt(qs, r.entry.target.verdict) == Some(at) && qs[at].name != ""
        && IsUser(Abs(P.Resolved(qs)), qs[at].name)
    ensures var r' := P.ResolvedRule(qs, r);
      KindOk(r') && SizeOk(r') && ReadyRule(r') && RuleOk(Abs(P.Resolved(qs)), AbsRule(r'))
  {
    hide IsUser, Abs, P.Resolved, P.ChainAt, EntrySize;
  }

  /** All rules that are read are in order. */
  lemma {:induction false} ReadRulesOk(b: Blob, n: nat, q: P.State)
    requires KernelTable(b, n) && P.ReadFrom(b, P.START, 0) == P.Go(q)
    ensures var cs := P.Resolved(q.chains); KindsOk(cs) && SizesOk(cs) && Ready(cs) && RulesOk(Abs(cs))
  {
    var cs := P.Resolved(q.chains);
    forall k, r | 0 <= k < |cs| && 0 <= r < |cs[k].rules|
      ensures KindOk(cs[k].rules[r]) && SizeOk(cs[k].rules[r]) && ReadyRule(cs[k].rules[r])
      ensures RuleOk(Abs(cs), AbsRule(cs[k].rules[r]))
    {
      ResolvedAt(q.chains, k, r);
      RuleGood(b, n, q, k, r);
    }
    hide P.Resolved, KindOk, SizeOk, ReadyRule, RuleOk, KernelTable, P.ReadFrom;
    AbsRulesOk(cs);
  }

  lemma {:induction false} AbsRulesOk(cs: seq<ChainHead>)
    requires forall k, r :: 0 <= k < |cs| && 0 <= r < |cs[k].rules| ==> RuleOk(Abs(cs), AbsRule(cs[k].rules[r]))
    ensures RulesOk(Abs(cs))
  {
    Heads(cs);
    hide RuleOk;
    forall k, r | 0 <= k < |Abs(cs)| && 0 <= r < |Abs(cs)[k].rules| ensures RuleOk(Abs(cs), Abs(cs)[k].rules[r]) {
      AbsAt(cs, k);
      assert RuleOk(Abs(cs), AbsRule(cs[k].rules[r]));
    }
  }

  // ------------------------------------------------------------------------------------- references

  /** A jump hits just the chain whose name it is given. */
  lemma {:induction false} HitsByName(b: Blob, n: nat, q: P.State, k: nat, r: nat, j: nat)
    requires KernelTable(b, n) && P.ReadFrom(b, P.START, 0) == P.Go(q) && k < |q.chains| && r < |q.chains[k].rules|
    requires j < |q.chains|
    ensures P.Hits(q.chains, j)(q.chains[k].rules[r])
         == IsCall(q.chains[j].name)(AbsRule(P.ResolvedRule(q.chains, q.chains[k].rules[r])))
  {
    hide *;
    var y := RuleKnown(b, n, q, k, r);
    var rule := q.chains[k].rules[r];
    if rule.kind.Jump? {
      var at := JumpKnown(b, n, q, y);
      if at < j {
        NamesApart(b, n, q, at, j);
      } else if j < at {
        NamesApart(b, n, q, j, at);
      }
      HitsBy(q.chains, rule, j, at);
    } else {
      HitsBy(q.chains, rule, j, j);
    }
  }

  lemma {:induction false} HitsBy(qs: seq<ChainHead>, r: RuleHead, j: nat, at: nat)
    requires j < |qs| && at < |qs| && (qs[at].name == qs[j].name ==> at == j)
    requires r.kind.Jump? ==> P.ChainAt(qs, r.entry.target.verdict) == Some(at)
    ensures P.Hits(qs, j)(r) == IsCall(qs[j].name)(AbsRule(P.ResolvedRule(qs, r)))
  {
    hide P.ChainAt;
  }

  /** The references counted in the second pass are the calls that there are. */
  lemma {:induction false} ReferencesAreCalls(b: Blob, n: nat, q: P.State, j: nat)
    requires KernelTable(b, n) && P.ReadFrom(b, P.START, 0) == P.Go(q) && j < |q.chains|
    ensures Total(q.chains, P.HitsIn(q.chains, j)) == Calls(Abs(P.Resolved(q.chains)), q.chains[j].name)
  {
    var qs, cs, name := q.chains, P.Resolved(q.chains), q.chains[j].name;
    ResolvedMany(qs);
    Heads(cs);
    forall k | 0 <= k < |qs| ensures P.HitsIn(qs, j)(qs[k]) == CallsIn(name)(Abs(cs)[k]) {
      ChainHits(b, n, q, k, j);
    }
    hide P.Resolved, Abs, KernelTable, P.ReadFrom;
    TotalSame(qs, Abs(cs), P.HitsIn(qs, j), CallsIn(name));
  }

  lemma {:induction false} ChainHits(b: Blob, n: nat, q: P.State, k: nat, j: nat)
    requires KernelTable(b, n) && P.ReadFrom(b, P.START, 0) == P.Go(q) && k < |q.chains| && j < |q.chains|
    ensures k < |Abs(P.Resolved(q.chains))|
    ensures P.HitsIn(q.chains, j)(q.chains[k]) == CallsIn(q.chains[j].name)(Abs(P.Resolved(q.chains))[k])
  {
    var qs, cs, name := q.chains, P.Resolved(q.chains), q.chains[j].name;
    ResolvedAt(qs, k, 0);
    AbsAt(cs, k);
    forall r | 0 <= r < |qs[k].rules| ensures P.Hits(qs, j)(qs[k].rules[r]) == IsCall(name)(Abs(cs)[k].rules[r]) {
      ResolvedAt(qs, k, r);
      HitsByName(b, n, q, k, r, j);
    }
    hide P.Resolved, Abs, KernelTable, P.ReadFrom, P.Hits, IsCall, P.ResolvedRule;
    TotalSame(qs[k].rules, Abs(cs)[k].rules, P.Hits(qs, j), IsCall(name));
  }

  lemma {:induction false} ReadCachesOk(b: Blob, n: nat, q: P.State)
    requires KernelTable(b, n) && P.ReadFrom(b, P.START, 0) == P.Go(q)
    ensures CachesOk(P.Resolved(q.chains))
  {
    var cs := P.Resolved(q.chains);
    ResolvedMany(q.chains);
    forall k | 0 <= k < |cs|
      ensures cs[k].numRules == |cs[k].rules| && cs[k].references == Calls(Abs(cs), cs[k].name)
    {
      ReferencesAreCalls(b, n, q, k);
      ReferencesOf(b, n, q, k);
    }
    hide P.Resolved, Abs, KernelTable, P.ReadFrom, Calls;
  }

  lemma {:induction false} ReferencesOf(b: Blob, n: nat, q: P.State, k: nat)
    requires KernelTable(b, n) && P.ReadFrom(b, P.START, 0) == P.Go(q) && k < |q.chains|
    ensures var c := P.Resolved(q.chains)[k];
      && c.name == q.chains[k].name && c.numRules == |c.rules|
      && c.references == Total(q.chains, P.HitsIn(q.chains, k))
  {
    hide *;
    var x := SomeBegin(b, n, q, k);
    NewReferences(b, n, q, k, x);
    ResolvedCounts(q.chains, k);
  }

  lemma {:induction false} NewReferences(b: Blob, n: nat, q: P.State, k: nat, x: nat)
    requires BeginsAt(b, n, q, k, x)
    ensures k < |q.chains| && q.chains[k].references == 0 && q.chains[k].numRules == |q.chains[k].rules|
  {
    hide O.Begins, O.FirstRule, NextOf, O.RuleNo, O.EntryNo, O.OffsetNo, O.NameNo, O.HookNo;
  }

  lemma {:induction false} ResolvedCounts(qs: seq<ChainHead>, k: nat)
    requires k < |qs| && qs[k].references == 0 && qs[k].numRules == |qs[k].rules|
    ensures var c := P.Resolved(qs)[k];
      c.name == qs[k].name && c.numRules == |c.rules| && c.references == Total(qs, P.HitsIn(qs, k))
  {
    hide P.ResolvedRule, P.HitsIn, Total;
  }

  // --------------------------------------------------------------------------------------- counters

  /** If no two summands count, and none counts more than once, the total is at most 1. */
  lemma {:induction false} AtMostOne<T>(s: seq<T>, f: T -> nat)
    requires forall k :: 0 <= k < |s| ==> f(s[k]) <= 1
    requires forall k, l :: 0 <= k < l < |s| ==> f(s[k]) == 0 || f(s[l]) == 0
    ensures Total(s, f) <= 1
  {
    if s != [] {
      var front := s[..|s| - 1];
      if f(s[|s| - 1]) > 0 {
        TotalZero(front, f);
      } else {
        AtMostOne(front, f);
      }
    }
  }

  /** A chain's slots take over the counters of its own entries, each once. */
  lemma {:induction false} ChainTakes(b: Blob, n: nat, q: P.State, k: nat, x: nat, p: nat)
    requires BeginsAt(b, n, q, k, x)
    ensures var hs := O.Begins(b, n - 1);
      && k < |q.chains| && |P.Resolved(q.chains)| == |q.chains|
      && ChainMaps(p)(P.Resolved(q.chains)[k]) <= 1
      && (ChainMaps(p)(P.Resolved(q.chains)[k]) > 0 ==> hs[x] <= p < NextOf(hs, x, n - 1))
  {
    hide *;
    BeginsAtIs(b, n, q, k, x);
    var hs := O.Begins(b, n - 1);
    var i, j := hs[x], NextOf(hs, x, n - 1);
    ResolvedMany(q.chains);
    FirstIs(b, i);
    SlotsContiguous(b, q.chains, k, i, j);
    ContiguousTakes(P.Resolved(q.chains)[k], O.FirstRule(b, i), p);
  }

  /** The slots of a chain with their entries' numbers. */
  lemma {:induction false} SlotsContiguous(b: Blob, qs: seq<ChainHead>, k: nat, i: nat, j: nat)
    requires k < |qs| && O.FirstRule(b, i) < j && qs[k] == O.WholeChain(b, i, j)
    ensures var c, first := P.Resolved(qs)[k], O.FirstRule(b, i);
      && |c.rules| == j - 1 - first && c.counterMap == NormalMap(j - 1)
      && forall r {:trigger c.rules[r]} :: 0 <= r < |c.rules| ==> c.rules[r].counterMap == NormalMap(first + r)
  {
    ResolvedAt(qs, k, 0);
    assert P.Resolved(qs)[k].counterMap == qs[k].counterMap by { hide P.ResolvedRule, P.HitsIn, Total, O.WholeChain; }
    hide O.FirstRule, O.OffsetNo, O.EntryNo, O.NameNo, O.HookNo, P.Resolved, P.ChainAt;
    forall r | 0 <= r < |P.Resolved(qs)[k].rules|
      ensures P.Resolved(qs)[k].rules[r].counterMap == NormalMap(O.FirstRule(b, i) + r)
    {
      ResolvedAt(qs, k, r);
      assert qs[k].rules[r] == O.RuleNo(b, O.FirstRule(b, i) + r);
    }
  }

  lemma {:induction false} ContiguousTakes(c: ChainHead, first: nat, p: nat)
    requires c.counterMap == NormalMap(first + |c.rules|)
    requires forall r {:trigger c.rules[r]} :: 0 <= r < |c.rules| ==> c.rules[r].counterMap == NormalMap(first + r)
    ensures ChainMaps(p)(c) <= 1 && (ChainMaps(p)(c) > 0 ==> first <= p <= first + |c.rules|)
  {
    Reread.RuleTakers(c.rules, first, |c.rules|, p);
    assert c.rules[..|c.rules|] == c.rules;
  }

  lemma {:induction false} PairTakes(b: Blob, n: nat, q: P.State, k: nat, l: nat, p: nat)
    requires KernelTable(b, n) && P.ReadFrom(b, P.START, 0) == P.Go(q) && k < l < |q.chains|
    ensures |P.Resolved(q.chains)| == |q.chains| && ChainMaps(p)(P.Resolved(q.chains)[k]) <= 1
    ensures ChainMaps(p)(P.Resolved(q.chains)[l]) <= 1
    ensures ChainMaps(p)(P.Resolved(q.chains)[k]) == 0 || ChainMaps(p)(P.Resolved(q.chains)[l]) == 0
  {
    hide *;
    TableWalks(b, n);
    var x := SomeBegin(b, n, q, k);
    var z := SomeBegin(b, n, q, l);
    BeginsDiffer(b, n, q, k, l, x, z);
    ChainTakes(b, n, q, k, x, p);
    ChainTakes(b, n, q, l, z, p);
    TitleAt(b, n, q, k, x);
    TitleAt(b, n, q, l, z);
    EndsApart(b, n - 1, x, z);
  }

  lemma {:induction false} EndsApart(b: Blob, m: nat, x: nat, z: nat)
    requires x < |O.Begins(b, m)| && z < |O.Begins(b, m)|
    ensures x < z ==> NextOf(O.Begins(b, m), x, m) <= O.Begins(b, m)[z]
    ensures z < x ==> NextOf(O.Begins(b, m), z, m) <= O.Begins(b, m)[x]
  {
    O.BeginsRises(b, m);
    hide O.Begins;
    if x < z { O.Rising(O.Begins(b, m), x + 1, z); }
    if z < x { O.Rising(O.Begins(b, m), z + 1, x); }
  }

  lemma {:induction false} ReadTakers(b: Blob, n: nat, q: P.State, p: nat)
    requires KernelTable(b, n) && P.ReadFrom(b, P.START, 0) == P.Go(q)
    ensures Takers(P.Resolved(q.chains), p) <= 1
  {
    var cs := P.Resolved(q.chains);
    ResolvedMany(q.chains);
    forall k | 0 <= k < |cs| ensures ChainMaps(p)(cs[k]) <= 1 {
      TakesOne(b, n, q, k, p);
    }
    forall k, l | 0 <= k < l < |cs| ensures ChainMaps(p)(cs[k]) == 0 || ChainMaps(p)(cs[l]) == 0 {
      PairTakes(b, n, q, k, l, p);
    }
    hide KernelTable, P.ReadFrom, P.Resolved, ChainMaps;
    AtMostOne(cs, ChainMaps(p));
  }

  lemma {:induction false} TakesOne(b: Blob, n: nat, q: P.State, k: nat, p: nat)
    requires KernelTable(b, n) && P.ReadFrom(b, P.START, 0) == P.Go(q) && k < |q.chains|
    ensures |P.Resolved(q.chains)| == |q.chains| && ChainMaps(p)(P.Resolved(q.chains)[k]) <= 1
  {
    hide *;
    var x := SomeBegin(b, n, q, k);
    ChainTakes(b, n, q, k, x, p);
  }

  /** Each rule and each policy holds the counter of its own entry. */
  lemma {:induction false} ReadSlotsOk(b: Blob, n: nat, q: P.State, k: nat)
    requires KernelTable(b, n) && P.ReadFrom(b, P.START, 0) == P.Go(q) && k < |q.chains|
    ensures |P.Resolved(q.chains)| == |q.chains| && ChainSlotsOk(P.Resolved(q.chains)[k], q.counts)
  {
    hide *;
    TableWalks(b, n);
    ResolvedMany(q.chains);
    var x := ChainRead(b, n, q, k);
    var i, j := O.Begins(b, n - 1)[x], NextOf(O.Begins(b, n - 1), x, n - 1);
    O.CountsInOrder(b, n, q);
    SlotsContiguous(b, q.chains, k, i, j);
    CountersOwn(b, q.chains, k, i, j);
    SlotsBy(b, P.Resolved(q.chains)[k], q.counts, O.FirstRule(b, i));
  }

  lemma {:induction false} CountersOwn(b: Blob, qs: seq<ChainHead>, k: nat, i: nat, j: nat)
    requires k < |qs| && O.FirstRule(b, i) < j && qs[k] == O.WholeChain(b, i, j)
    ensures var c, first := P.Resolved(qs)[k], O.FirstRule(b, i);
      && |c.rules| == j - 1 - first && c.counters == O.EntryNo(b, j - 1).counters
      && forall r {:trigger c.rules[r]} :: 0 <= r < |c.rules| ==>
           c.rules[r].entry.counters == O.EntryNo(b, first + r).counters
  {
    ResolvedAt(qs, k, 0);
    assert P.Resolved(qs)[k].counters == qs[k].counters by { hide P.ResolvedRule, P.HitsIn, Total, O.WholeChain; }
    hide O.FirstRule, O.OffsetNo, O.EntryNo, O.NameNo, O.HookNo, P.Resolved, P.ChainAt;
    forall r | 0 <= r < |P.Resolved(qs)[k].rules|
      ensures P.Resolved(qs)[k].rules[r].entry.counters == O.EntryNo(b, O.FirstRule(b, i) + r).counters
    {
      ResolvedAt(qs, k, r);
      assert qs[k].rules[r] == O.RuleNo(b, O.FirstRule(b, i) + r);
    }
  }

  lemma {:induction false} SlotsBy(b: Blob, c: ChainHead, counts: seq<Counters>, first: nat)
    requires first + |c.rules| < |counts| && c.counterMap == NormalMap(first + |c.rules|)
    requires forall y :: 0 <= y < |counts| ==> counts[y] == O.EntryNo(b, y).counters
    requires c.counters == O.EntryNo(b, first + |c.rules|).counters
    requires forall r {:trigger c.rules[r]} :: 0 <= r < |c.rules| ==>
      c.rules[r].counterMap == NormalMap(first + r) && c.rules[r].entry.counters == O.EntryNo(b, first + r).counters
    ensures ChainSlotsOk(c, counts)
  {
    hide O.EntryNo;
  }

  // -------------------------------------------------------------------------------------- user chains

  lemma {:induction false} HookSmall(b: Blob, off: nat)
    ensures P.HookAt(b, off) <= |HOOK_NAMES|
  {
  }

  /** The number of user chains is counted along. */
  lemma {:induction false} UsersStep(b: Blob, p: P.State, e: Entry, off: nat, q: P.State)
    requires P.AddEntry(b, p, e, off) == P.Go(q) && p.numChains == UserCount(p.chains)
    ensures q.numChains == UserCount(q.chains)
  {
    hide *;
    O.CountsGrow(b, p, e, off, q);
    O.CountingKeepsChains(p, e, off, q, b);
    if off + EntrySize(e) == b.size {
      var d := P.DelPolicy(p).state;
      UsersKept(p.chains, d.chains, p, d);
    } else if e.target.name == ERROR_TARGET {
      var d := O.AddsUserChain(b, p, e, off, q);
      O.Titled(e.target.text, 0);
      UsersAdded(p.(numChains := p.numChains + 1), NewChain(e.target.text, 0), off, d);
    } else if P.HookAt(b, off) > 0 {
      var h := P.HookAt(b, off);
      HookSmall(b, off);
      var d := O.AddsBuiltinChain(b, p, e, off, q);
      O.Titled(HOOK_NAMES[h - 1], h);
      UsersAdded(p, NewChain(HOOK_NAMES[h - 1], h), off, d);
      UsersRule(d, e, off, q);
    } else {
      UsersRule(p, e, off, q);
    }
  }

  lemma {:induction false} UsersKept(cs: seq<ChainHead>, cs': seq<ChainHead>, p: P.State, d: P.State)
    requires P.DelPolicy(p) == P.Go(d) && cs == p.chains && cs' == d.chains
    ensures UserCount(cs') == UserCount(cs)
  {
    O.PolicyKeeps(p, d);
    hide P.DelPolicy;
    TotalSame(cs, cs', IsUserHead(), IsUserHead());
  }

  lemma {:induction false} UsersAdded(p: P.State, c: ChainHead, off: nat, q: P.State)
    requires P.AddChain(p, c, off) == P.Go(q)
    ensures UserCount(q.chains) == UserCount(p.chains) + if c.hook == 0 then 1 else 0
  {
    var d := P.DelPolicy(p).state;
    var at := O.PlaceRead(p, c, off, q, d);
    UsersKept(p.chains, d.chains, p, d);
    hide P.AddChain, P.DelPolicy, Place;
    TotalInsert(d.chains, at, c.(headOffset := off, index := d.num), IsUserHead());
  }

  lemma {:induction false} UsersRule(d: P.State, e: Entry, off: nat, q: P.State)
    requires P.Counted(P.AddRule(d, e, off), e) == P.Go(q)
    ensures UserCount(q.chains) == UserCount(d.chains)
  {
    hide P.KindOf;
    TotalSame(d.chains, q.chains, IsUserHead(), IsUserHead());
  }

  lemma {:induction false} UsersCounted(b: Blob, n: nat, p: P.State, m: nat, q: P.State)
    requires p.numChains == UserCount(p.chains) && n < m && Snapshot.Walked(b, m) == Some(b.size)
    requires P.ReadFrom(b, p, O.OffsetNo(b, n)) == P.Go(q)
    ensures q.numChains == UserCount(q.chains)
    decreases m - n
  {
    hide *;
    O.WalkedBefore(b, n, m);
    var off := O.OffsetNo(b, n);
    var e := b.entries[off];
    var r := O.ReadsOne(b, p, off, q);
    O.EntryNoIs(b, n, off, e);
    O.NextOffset(b, n, off, e);
    O.OffsetLast(b, m);
    UsersStep(b, p, e, off, r);
    if n + 1 == m {
      O.ReadsNone(b, r);
    } else {
      UsersCounted(b, n + 1, r, m, q);
    }
  }

  lemma {:induction false} ReadUsers(b: Blob, n: nat, q: P.State)
    requires n > 0 && Snapshot.Walked(b, n) == Some(b.size) && P.ReadFrom(b, P.START, 0) == P.Go(q)
    ensures q.numChains == UserCount(P.Resolved(q.chains))
  {
    O.NothingRead(b);
    UsersCounted(b, 0, P.START, n, q);
    ResolvedMany(q.chains);
    forall k | 0 <= k < |q.chains| ensures P.Resolved(q.chains)[k].hook == q.chains[k].hook {
      ResolvedAt(q.chains, k, 0);
    }
    hide P.ReadFrom, P.Resolved;
    TotalSame(q.chains, P.Resolved(q.chains), IsUserHead(), IsUserHead());
  }

  // -------------------------------------------------------------------------------------- the handle

  /** All that a valid handle is made of. */
  lemma {:induction false} ReadChainsOk(b: Blob, n: nat, q: P.State)
    requires KernelTable(b, n) && P.ReadFrom(b, P.START, 0) == P.Go(q)
    ensures ChainsOk(P.Resolved(q.chains), q.counts) && Ready(P.Resolved(q.chains))
  {
    var cs := P.Resolved(q.chains);
    ResolvedMany(q.chains);
    ReadNames(b, n, q);
    ReadRulesOk(b, n, q);
    ReadCachesOk(b, n, q);
    var q' := IsParsed(b, n);
    TableInOrder(b, n);
    forall k | 0 <= k < |cs| ensures ChainSlotsOk(cs[k], q.counts) {
      ReadSlotsOk(b, n, q, k);
    }
    forall p: nat ensures Takers(cs, p) <= 1 {
      ReadTakers(b, n, q, p);
    }
    hide KernelTable, P.ReadFrom, P.ParseOf, P.Resolved, NamesDiffer, Ordered, HooksOk, RulesOk, KindsOk, SizesOk,
         CachesOk, Ready, Takers, ChainSlotsOk, Abs;
  }

  lemma {:induction false} ReadPoliciesOk(b: Blob, n: nat, q: P.State)
    requires KernelTable(b, n) && P.ReadFrom(b, P.START, 0) == P.Go(q)
    ensures PoliciesOk(P.Resolved(q.chains))
  {
    ReadTells(b, n, q);
    hide KernelTable, P.ReadFrom, P.Resolved, EntryTells;
  }

  /** Reading a table from the kernel, whatever order its user chains come in: the handle is valid, its chains tell the
      kernel's table, and it can be compiled. */
  method ReadKernelTable(b: Blob, ghost n: nat) returns (h: Handle)
    requires KernelTable(b, n)
    ensures fresh(h) && h.Valid() && !h.changed && Ready(h.chains) && PoliciesOk(h.chains) && Tells(h.chains, b)
    ensures |h.original| == n && forall y :: 0 <= y < n ==> h.original[y] == O.EntryNo(b, y).counters
  {
    ghost var q := IsParsed(b, n);
    TableWalks(b, n);
    ReadChainsOk(b, n, q);
    ReadPoliciesOk(b, n, q);
    ReadTells(b, n, q);
    ReadUsers(b, n, q);
    O.CountsInOrder(b, n, q);
    hide KernelTable, P.ParseOf, P.ReadFrom, P.Resolved, ChainsOk, Ready, PoliciesOk, Tells;
    var r := P.ParseTable(b);
    h := new Handle(r.chains, r.numChains, r.counts);
  }

  /** What is compiled from the rules that have been read, in the order in which the library keeps them, means what the
      kernel's table meant: for every packet and any number of steps the walks through the two tables stand at the same
      place of the same chain, `s`, or have ended in the same verdict. */
  lemma {:induction false} RebuiltMeansTheSame(b: Blob, n: nat, cs': seq<ChainHead>, b': Blob, o: Oracle, k: nat,
                                               steps: nat) returns (s: State<Spot>)
    requires KernelTable(b, n) && Unconditional(o) && Compiled(cs', b') && PoliciesOk(cs')
    requires P.ParseOf(b).Parsed? && Abs(cs') == Abs(P.ParseOf(b).chains)
    requires k < |P.ParseOf(b).chains| && P.ParseOf(b).chains[k].hook > 0
    ensures var cs, h := P.ParseOf(b).chains, P.ParseOf(b).chains[k].hook - 1;
      && h in b.hooks && h in b.underflows && h in b'.hooks && h in b'.underflows
      && StateOk(cs, s) && BlobRun(b, o, steps, BlobStart(b, h)) == Image(cs, s)
      && StateOk(cs', s) && BlobRun(b', o, steps, BlobStart(b', h)) == Image(cs', s)
    ensures var h := P.ParseOf(b).chains[k].hook - 1;
      var f, f' := BlobRun(b, o, steps, BlobStart(b, h)), BlobRun(b', o, steps, BlobStart(b', h));
      (f.Ended? <==> f'.Ended?) && (f.Ended? ==> f.verdict == f'.verdict)
  {
    hide *;
    var cs := P.ParseOf(b).chains;
    ReadingPreservesMeaning(b, n, o, k, steps);
    SameHooks(cs, cs', k);
    MeaningPreserved(cs', b', o, k, steps);
    s := Run(Abs(cs), o, steps, Start(Abs(cs), k));
    EndsAlike(cs, s);
    EndsAlike(cs', s);
  }

  lemma {:induction false} SameHooks(cs: seq<ChainHead>, cs': seq<ChainHead>, k: nat)
    requires Abs(cs') == Abs(cs) && k < |cs|
    ensures k < |cs'| && cs'[k].hook == cs[k].hook
  {
    Heads(cs);
    Heads(cs');
    AbsAt(cs, k);
  }

  lemma {:induction false} EndsAlike(cs: seq<ChainHead>, s: State<Spot>)
    requires StateOk(cs, s)
    ensures Image(cs, s).Ended? <==> s.Ended?
    ensures s.Ended? ==> Image(cs, s).verdict == s.verdict
  {
  }
}
