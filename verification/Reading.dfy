/** What reading a kernel table means: whatever order its user chains come in, walking the chains that are read
    is walking the table. */
module Reading {
  import opened Names
  import opened Seqs
  import opened Rulesets
  import opened Cache
  import opened HandleFacts
  import opened Layout
  import opened Compiler
  import opened Walk
  import Snapshot
  import P = Parser
  import O = ParserOrder

  // ------------------------------------------------------------------------- chains that tell the blob

  /** An entry without conditions that holds a verdict. */
  predicate IsVerdict(e: Entry, verdict: int) {
    e.ip == BLANK_IP && e.matches == [] && e.target.name == STANDARD_TARGET && e.target.verdict == verdict < 0
  }

  /** At the end of a chain the blob holds its policy; a user chain returns. */
  ghost predicate EndTells(b: Blob, c: ChainHead) {
    c.footOffset in b.entries && IsVerdict(b.entries[c.footOffset], if c.hook > 0 then c.verdict else RETURN)
  }

  /** Wherever a packet can be, the blob tells the kernel what the chains say. */
  ghost predicate Tells(cs: seq<ChainHead>, b: Blob) {
    && (forall k, i :: 0 <= k < |cs| && 0 <= i < |cs[k].rules| ==> EntryTells(cs, b, Spot(k, i)))
    && (forall k :: 0 <= k < |cs| ==> EndTells(b, cs[k]))
  }

  lemma {:induction false} EndTold(cs: seq<ChainHead>, b: Blob, o: Oracle, t: nat, s: State<Spot>)
    requires StateOk(cs, s) && s.At? && s.place.rule == |cs[s.place.chain].rules| && EndTells(b, cs[s.place.chain])
    requires Unconditional(o)
    ensures StateOk(cs, Step(Abs(cs), o, t, s))
    ensures BlobStep(b, o, t, Image(cs, s)) == Image(cs, Step(Abs(cs), o, t, s))
  {
    var p := s.place;
    AbsAt(cs, p.chain);
    OffsetsConcat(cs, s.trail, [p]);
    assert Offsets(cs, [p]) == [Offset(cs, p)];
    ReturnAgrees(cs, s.back, s.trail + [p]);
    assert o.matches(t, BLANK_IP, []);
  }

  lemma {:induction false} StepTold(cs: seq<ChainHead>, b: Blob, o: Oracle, t: nat, s: State<Spot>)
    requires Tells(cs, b) && StateOk(cs, s) && Unconditional(o)
    ensures StateOk(cs, Step(Abs(cs), o, t, s))
    ensures BlobStep(b, o, t, Image(cs, s)) == Image(cs, Step(Abs(cs), o, t, s))
  {
    if s.At? {
      hide Step, BlobStep, EntryTells, EndTells;
      if s.place.rule < |cs[s.place.chain].rules| {
        assert EntryTells(cs, b, Spot(s.place.chain, s.place.rule));
        RuleStepAgrees(cs, b, o, t, s);
      } else {
        EndTold(cs, b, o, t, s);
      }
    }
  }

  /** Walking chains that tell the blob is walking the blob. */
  lemma {:induction false} RunTold(cs: seq<ChainHead>, b: Blob, o: Oracle, n: nat, s: State<Spot>)
    requires Tells(cs, b) && StateOk(cs, s) && Unconditional(o)
    ensures StateOk(cs, Run(Abs(cs), o, n, s))
    ensures BlobRun(b, o, n, Image(cs, s)) == Image(cs, Run(Abs(cs), o, n, s))
  {
    hide Tells, Step, BlobStep, StateOk, Image, Unconditional, Abs;
    if n > 0 {
      RunTold(cs, b, o, n - 1, s);
      StepTold(cs, b, o, n - 1, Run(Abs(cs), o, n - 1, s));
    }
  }

  // ----------------------------------------------------------------------------------- kernel tables

  /** Where the chain that begins with entry `hs[x]` ends: before the next beginning, or before entry `m`. */
  function NextOf(hs: seq<nat>, x: nat, m: nat): nat { if x + 1 < |hs| then hs[x + 1] else m }

  /** Entry `x` is a jump to the first entry behind the error node of some user chain. */
  ghost predicate JumpsToChain(b: Blob, x: nat, m: nat) {
    exists j :: 0 <= j < m && O.BeginsChain(b, j) && O.IsError(b, j)
                && O.EntryNo(b, x).target.verdict == O.OffsetNo(b, j + 1)
  }

  /** Entry `x` is a jump, and not to the entry behind it. */
  predicate IsJump(b: Blob, x: nat) {
    var e := O.EntryNo(b, x);
    e.target.name == STANDARD_TARGET && e.target.verdict >= 0 && e.target.verdict != O.OffsetNo(b, x) + EntrySize(e)
  }

  /** A chain ends in an entry without conditions: a user chain in a return, a builtin chain in its policy, to which the
      hook's underflow leads. */
  predicate EndsWell(b: Blob, i: nat, j: nat) {
    var e, h := O.EntryNo(b, if j > 0 then j - 1 else 0), O.HookNo(b, i);
    if h == 0 then IsVerdict(e, RETURN)
    else j > 0 && IsVerdict(e, e.target.verdict) && h - 1 in b.underflows && b.underflows[h - 1] == O.OffsetNo(b, j - 1)
  }

  /** A table as the kernel keeps it: `n` entries, chains with names, all different, builtin chains first, jumps only to
      user chains, and an end to each chain.  The user chains may come in any order. */
  ghost predicate KernelTable(b: Blob, n: nat) {
    && n > 0 && Snapshot.Walked(b, n) == Some(b.size) && P.ReadFrom(b, P.START, 0).Go?
    && var hs := O.Begins(b, n - 1);
       && O.Sortable(b, hs) && (forall x :: 0 <= x < |hs| ==> O.NameNo(b, hs[x]) != "")
       && (forall x :: 0 <= x < n - 1 && IsJump(b, x) ==> JumpsToChain(b, x, n - 1))
       && (forall x :: 0 <= x < |hs| ==> EndsWell(b, hs[x], NextOf(hs, x, n - 1)))
  }

  // ------------------------------------------------------------------------------ entries and chains

  /** Exactly the entries that begin a chain are listed, in their order. */
  lemma {:induction false} BeginsAll(b: Blob, m: nat, x: nat) returns (i: nat)
    requires x < m && O.BeginsChain(b, x)
    ensures i < |O.Begins(b, m)| && O.Begins(b, m)[i] == x
  {
    if x == m - 1 {
      i := |O.Begins(b, m)| - 1;
    } else {
      i := BeginsAll(b, m - 1, x);
      O.BeginsGrows(b, m - 1, m);
    }
  }

  /** Nothing begins between a chain's beginning and its end. */
  lemma {:induction false} NoneBetween(b: Blob, m: nat, x: nat, y: nat)
    requires x < |O.Begins(b, m)| && O.Begins(b, m)[x] < y < NextOf(O.Begins(b, m), x, m)
    ensures y < m && !O.BeginsChain(b, y)
  {
    var hs := O.Begins(b, m);
    hide O.BeginsChain, O.Begins;
    O.BeginsRises(b, m);
    if O.BeginsChain(b, y) {
      var i := BeginsAll(b, m, y);
      if i <= x { O.Rising(hs, i, x); } else { O.Rising(hs, x + 1, i); }
    }
  }

  /** Where entry number `y` lies, and what it is. */
  lemma {:induction false} EntryLies(b: Blob, n: nat, y: nat)
    requires Snapshot.Walked(b, n) == Some(b.size) && y + 1 < n
    ensures EntryAt(b.entries, O.OffsetNo(b, y), O.EntryNo(b, y))
    ensures O.OffsetNo(b, y + 1) == O.OffsetNo(b, y) + EntrySize(O.EntryNo(b, y)) != b.size
  {
    O.WalkedBefore(b, y, n);
    var off := O.OffsetNo(b, y);
    var e := b.entries[off];
    O.OffsetLast(b, n);
    O.EntryNoIs(b, y, off, e);
    O.NextOffset(b, y, off, e);
  }

  /** An entry that does not begin a chain is no error node. */
  lemma {:induction false} NoErrorInside(b: Blob, n: nat, y: nat)
    requires Snapshot.Walked(b, n) == Some(b.size) && y + 1 < n && !O.BeginsChain(b, y)
    ensures O.EntryNo(b, y).target.name != ERROR_TARGET
  {
    EntryLies(b, n, y);
    hide O.EntryNo, O.OffsetNo, P.HookAt;
  }

  /** Each chain that has been read is one of the table's, from its beginning to its end. */
  lemma {:induction false} ChainRead(b: Blob, n: nat, q: P.State, k: nat) returns (x: nat)
    requires n > 0 && Snapshot.Walked(b, n) == Some(b.size) && P.ReadFrom(b, P.START, 0) == P.Go(q) && k < |q.chains|
    ensures var hs := O.Begins(b, n - 1);
      && x < |hs| && O.FirstRule(b, hs[x]) < NextOf(hs, x, n - 1) <= n - 1
      && q.chains[k] == O.WholeChain(b, hs[x], NextOf(hs, x, n - 1))
  {
    hide *;
    var hs := O.Begins(b, n - 1);
    O.NothingIsLost(b, n, q);
    x := O.Among(q.chains, O.ChainsWhole(b, hs, n - 1), k);
    WholeAtPlace(b, hs, n - 1, x);
  }

  /** And each of the table's chains has been read. */
  lemma {:induction false} ChainIsRead(b: Blob, n: nat, q: P.State, x: nat) returns (k: nat)
    requires n > 0 && Snapshot.Walked(b, n) == Some(b.size) && P.ReadFrom(b, P.START, 0) == P.Go(q)
    requires x < |O.Begins(b, n - 1)|
    ensures var hs := O.Begins(b, n - 1);
      && O.FirstRule(b, hs[x]) < NextOf(hs, x, n - 1) <= n - 1
      && k < |q.chains| && q.chains[k] == O.WholeChain(b, hs[x], NextOf(hs, x, n - 1))
  {
    hide *;
    var hs := O.Begins(b, n - 1);
    O.NothingIsLost(b, n, q);
    WholeAtPlace(b, hs, n - 1, x);
    k := O.Among(O.ChainsWhole(b, hs, n - 1), q.chains, x);
  }

  lemma {:induction false} WholeAtPlace(b: Blob, hs: seq<nat>, m: nat, x: nat)
    requires O.Filled(b, hs) && hs != [] && O.FirstRule(b, hs[|hs| - 1]) < m && x < |hs|
    requires forall k :: 0 <= k < |hs| ==> hs[k] < m
    ensures O.FirstRule(b, hs[x]) < NextOf(hs, x, m) <= m
    ensures O.ChainsWhole(b, hs, m)[x] == O.WholeChain(b, hs[x], NextOf(hs, x, m))
  {
    if x < |hs| - 1 {
      assert O.FirstRule(b, hs[x]) < hs[x + 1];
    }
    O.WholeElement(b, hs, m, x, NextOf(hs, x, m));
  }

  /** The rules of a chain, and its end. */
  lemma {:induction false} WholeParts(b: Blob, i: nat, j: nat, r: nat)
    requires O.FirstRule(b, i) < j
    ensures var c, first := O.WholeChain(b, i, j), O.FirstRule(b, i);
      && c.name == O.NameNo(b, i) && c.hook == O.HookNo(b, i) && |c.rules| == j - 1 - first
      && c.footOffset == O.OffsetNo(b, j - 1) && c.headOffset == O.OffsetNo(b, i)
      && c.verdict == O.EntryNo(b, j - 1).target.verdict
      && (r < |c.rules| ==> c.rules[r] == O.RuleNo(b, first + r))
      && (if r < |c.rules| then c.rules[r].offset else c.footOffset)
         == O.OffsetNo(b, if r < |c.rules| then first + r else j - 1)
  {
    hide O.NameNo, O.HookNo, O.EntryNo, O.OffsetNo, O.FirstRule;
  }

  // ----------------------------------------------------------------------------------- rule by rule

  /** Every entry that has been read as a rule has a kind. */
  lemma {:induction false} KindRead(b: Blob, n: nat, p: P.State, m: nat, q: P.State, y: nat)
    requires n <= y && y + 1 < m && Snapshot.Walked(b, m) == Some(b.size)
    requires P.ReadFrom(b, p, O.OffsetNo(b, n)) == P.Go(q) && O.EntryNo(b, y).target.name != ERROR_TARGET
    ensures P.KindOf(O.EntryNo(b, y), O.OffsetNo(b, y)).Some?
    decreases m - n
  {
    hide *;
    O.WalkedBefore(b, n, m);
    var off := O.OffsetNo(b, n);
    var e := b.entries[off];
    var r := O.ReadsOne(b, p, off, q);
    O.EntryNoIs(b, n, off, e);
    O.NextOffset(b, n, off, e);
    if n == y {
      EntryLies(b, m, y);
      AddedHasKind(b, p, e, off, r);
    } else {
      KindRead(b, n + 1, r, m, q, y);
    }
  }

  lemma {:induction false} AddedHasKind(b: Blob, p: P.State, e: Entry, off: nat, q: P.State)
    requires P.AddEntry(b, p, e, off) == P.Go(q) && off + EntrySize(e) != b.size && e.target.name != ERROR_TARGET
    ensures P.KindOf(e, off).Some?
  {
    hide P.KindOf, P.AddChain, P.HookAt;
  }

  lemma {:induction false} RuleHasKind(b: Blob, n: nat, q: P.State, y: nat)
    requires y + 1 < n && Snapshot.Walked(b, n) == Some(b.size) && P.ReadFrom(b, P.START, 0) == P.Go(q)
    requires O.EntryNo(b, y).target.name != ERROR_TARGET
    ensures P.KindOf(O.EntryNo(b, y), O.OffsetNo(b, y)) == Some(O.RuleNo(b, y).kind)
    ensures O.RuleNo(b, y).entry == O.EntryNo(b, y) && O.RuleNo(b, y).offset == O.OffsetNo(b, y)
  {
    O.NothingRead(b);
    KindRead(b, 0, P.START, n, q, y);
    hide O.EntryNo, O.OffsetNo, P.KindOf, P.ReadFrom;
  }

  /** The chain of a jump: its name finds it, and its first entry is where the jump leads. */
  lemma {:induction false} JumpLands(b: Blob, n: nat, q: P.State, y: nat)
    requires KernelTable(b, n) && P.ReadFrom(b, P.START, 0) == P.Go(q) && y + 1 < n && IsJump(b, y)
    ensures var cs, at := P.Resolved(q.chains), P.ChainAt(q.chains, O.EntryNo(b, y).target.verdict);
      && at.Some? && Lookup(Abs(cs), q.chains[at.value].name).Some?
      && var k := Lookup(Abs(cs), q.chains[at.value].name).value;
         SpotOk(cs, Spot(k, 0)) && O.EntryNo(b, y).target.verdict == Offset(cs, Spot(k, 0))
  {
    hide *;
    var v, m, hs := O.EntryNo(b, y).target.verdict, n - 1, O.Begins(b, n - 1);
    TableWalks(b, n);
    var j := JumpedTo(b, n, y);
    UserFirst(b, j);
    var x := BeginsAll(b, m, j);
    var i := ChainIsRead(b, n, q, x);
    var end := NextOf(hs, x, m);
    WholeParts(b, j, end, 0);
    O.WalkedBefore(b, n - 1, n);
    Between(b, n, j, end);
    O.JumpsFollow(b, n, q, i, v);
    NameFinds(b, n, q, i, x);
  }

  lemma {:induction false} JumpedTo(b: Blob, n: nat, y: nat) returns (j: nat)
    requires KernelTable(b, n) && y + 1 < n && IsJump(b, y)
    ensures j < n - 1 && O.BeginsChain(b, j) && O.IsError(b, j)
    ensures O.EntryNo(b, y).target.verdict == O.OffsetNo(b, j + 1)
  {
    hide IsJump, O.BeginsChain, O.IsError, O.EntryNo, O.OffsetNo, O.Sortable, EndsWell, P.ReadFrom, Snapshot.Walked;
    assert JumpsToChain(b, y, n - 1);
    j :| 0 <= j < n - 1 && O.BeginsChain(b, j) && O.IsError(b, j)
         && O.EntryNo(b, y).target.verdict == O.OffsetNo(b, j + 1);
  }

  lemma {:induction false} TableSorts(b: Blob, n: nat)
    requires KernelTable(b, n)
    ensures n > 0 && O.Sortable(b, O.Begins(b, n - 1))
  {
    hide IsJump, JumpsToChain, O.Sortable, EndsWell, P.ReadFrom, Snapshot.Walked, O.Begins;
  }

  lemma {:induction false} TableEnds(b: Blob, n: nat, x: nat)
    requires KernelTable(b, n) && x < |O.Begins(b, n - 1)|
    ensures EndsWell(b, O.Begins(b, n - 1)[x], NextOf(O.Begins(b, n - 1), x, n - 1))
  {
    hide IsJump, JumpsToChain, O.Sortable, EndsWell, P.ReadFrom, Snapshot.Walked, O.Begins, NextOf;
  }

  lemma {:induction false} UserFirst(b: Blob, j: nat)
    requires O.IsError(b, j)
    ensures O.FirstRule(b, j) == j + 1
  {
  }

  lemma {:induction false} Between(b: Blob, n: nat, i: nat, j: nat)
    requires i + 1 < j < n && Snapshot.Walked(b, n) == Some(b.size)
    ensures O.OffsetNo(b, i) <= O.OffsetNo(b, i + 1) <= O.OffsetNo(b, j - 1)
  {
    O.WalkedBefore(b, i + 1, n);
    O.WalkedBefore(b, j - 1, n);
    hide O.OffsetNo;
    O.OffsetsGrow(b, i, i + 1);
    if i + 1 < j - 1 { O.OffsetsGrow(b, i + 1, j - 1); }
  }

  /** The name of a chain finds it, or one that is the same. */
  lemma {:induction false} NameFinds(b: Blob, n: nat, q: P.State, i: nat, x: nat)
    requires KernelTable(b, n) && P.ReadFrom(b, P.START, 0) == P.Go(q) && i < |q.chains| && x < |O.Begins(b, n - 1)|
    requires O.FirstRule(b, O.Begins(b, n - 1)[x]) < NextOf(O.Begins(b, n - 1), x, n - 1)
    requires q.chains[i] == O.WholeChain(b, O.Begins(b, n - 1)[x], NextOf(O.Begins(b, n - 1), x, n - 1))
    ensures var cs := P.Resolved(q.chains);
      && Lookup(Abs(cs), q.chains[i].name).Some?
      && var k := Lookup(Abs(cs), q.chains[i].name).value;
         && SpotOk(cs, Spot(k, 0)) && q.chains[k] == q.chains[i]
         && Offset(cs, Spot(k, 0)) == O.OffsetNo(b, O.FirstRule(b, O.Begins(b, n - 1)[x]))
  {
    hide *;
    var cs, hs := P.Resolved(q.chains), O.Begins(b, n - 1);
    NamesKept(q.chains);
    TableSorts(b, n);
    TableWalks(b, n);
    var found := Lookup(Abs(cs), q.chains[i].name);
    assert found.Some?;
    var k := found.value;
    var z := ChainRead(b, n, q, k);
    WholeParts(b, hs[x], NextOf(hs, x, n - 1), 0);
    WholeParts(b, hs[z], NextOf(hs, z, n - 1), 0);
    NamesTell(b, hs, x, z);
    SpotLies(b, q.chains, k, hs[x], NextOf(hs, x, n - 1), 0);
  }

  lemma {:induction false} NamesKept(cs: seq<ChainHead>)
    ensures |Abs(P.Resolved(cs))| == |cs|
    ensures forall k {:trigger cs[k]} {:trigger Abs(P.Resolved(cs))[k]} :: 0 <= k < |cs| ==>
      Abs(P.Resolved(cs))[k].name == cs[k].name && Abs(P.Resolved(cs))[k].hook == cs[k].hook
  {
    Heads(P.Resolved(cs));
    hide Abs;
  }

  lemma {:induction false} NamesTell(b: Blob, hs: seq<nat>, x: nat, z: nat)
    requires O.Sortable(b, hs) && x < |hs| && z < |hs| && O.NameNo(b, hs[x]) == O.NameNo(b, hs[z])
    ensures x == z
  {
    hide O.NameNo, O.HookNo;
  }

  /** Where a place of a chain lies. */
  lemma {:induction false} SpotLies(b: Blob, qs: seq<ChainHead>, k: nat, i: nat, j: nat, r: nat)
    requires k < |qs| && O.FirstRule(b, i) < j && qs[k] == O.WholeChain(b, i, j) && O.FirstRule(b, i) + r < j
    ensures var cs := P.Resolved(qs);
      SpotOk(cs, Spot(k, r)) && Offset(cs, Spot(k, r)) == O.OffsetNo(b, O.FirstRule(b, i) + r)
  {
    WholeParts(b, i, j, r);
    hide O.OffsetNo, O.FirstRule, O.WholeChain, P.ChainAt;
    var cs := P.Resolved(qs);
    assert |cs[k].rules| == |qs[k].rules| && cs[k].footOffset == qs[k].footOffset;
    if r < |qs[k].rules| {
      assert cs[k].rules[r] == P.ResolvedRule(qs, qs[k].rules[r]);
    }
  }

  lemma {:induction false} ResolvedAt(qs: seq<ChainHead>, k: nat, r: nat)
    requires k < |qs|
    ensures var c := P.Resolved(qs)[k];
      && |P.Resolved(qs)| == |qs| && |c.rules| == |qs[k].rules| && c.name == qs[k].name && c.hook == qs[k].hook
      && c.verdict == qs[k].verdict && c.footOffset == qs[k].footOffset && c.headOffset == qs[k].headOffset
      && (r < |c.rules| ==> c.rules[r] == P.ResolvedRule(qs, qs[k].rules[r]))
  {
    hide P.ResolvedRule, P.HitsIn, Total;
  }

  lemma {:induction false} InsideNoError(b: Blob, n: nat, x: nat, y: nat)
    requires n > 0 && Snapshot.Walked(b, n) == Some(b.size) && x < |O.Begins(b, n - 1)|
    requires O.FirstRule(b, O.Begins(b, n - 1)[x]) <= y && y + 1 < NextOf(O.Begins(b, n - 1), x, n - 1) <= n - 1
    ensures O.EntryNo(b, y).target.name != ERROR_TARGET
  {
    var i := O.Begins(b, n - 1)[x];
    FirstIs(b, i);
    hide *;
    if y > i {
      NoneBetween(b, n - 1, x, y);
      NoErrorInside(b, n, y);
    }
  }

  lemma {:induction false} FirstIs(b: Blob, i: nat)
    ensures i <= O.FirstRule(b, i)
    ensures O.FirstRule(b, i) == i ==> O.EntryNo(b, i).target.name != ERROR_TARGET
  {
    hide O.EntryNo, O.OffsetNo, P.HookAt;
  }

  lemma {:induction false} KindMeans(e: Entry, off: nat)
    ensures match P.KindOf(e, off)
      case None => true
      case Some(Standard) => e.target.name == STANDARD_TARGET && e.target.verdict < 0
      case Some(Module) => e.target.name != STANDARD_TARGET
      case Some(Fallthrough) => e.target.name == STANDARD_TARGET && e.target.verdict == off + EntrySize(e)
      case Some(Jump(_)) =>
        e.target.name == STANDARD_TARGET && e.target.verdict >= 0 && e.target.verdict != off + EntrySize(e)
  {
    hide EntrySize;
  }

  lemma {:induction false} JumpIs(b: Blob, y: nat)
    ensures IsJump(b, y) <==>
      var e := O.EntryNo(b, y);
      e.target.name == STANDARD_TARGET && e.target.verdict >= 0 && e.target.verdict != O.OffsetNo(b, y) + EntrySize(e)
  {
    hide O.EntryNo, O.OffsetNo;
  }

  /** A rule as it has been read tells what its entry tells. */
  lemma {:induction false} RuleTells(b: Blob, n: nat, q: P.State, k: nat, r: nat)
    requires KernelTable(b, n) && P.ReadFrom(b, P.START, 0) == P.Go(q) && k < |q.chains| && r < |q.chains[k].rules|
    ensures var cs := P.Resolved(q.chains);
      k < |cs| && r < |cs[k].rules| && EntryTells(cs, b, Spot(k, r))
  {
    hide *;
    TableWalks(b, n);
    var hs, m := O.Begins(b, n - 1), n - 1;
    ResolvedAt(q.chains, k, r);
    var x := ChainRead(b, n, q, k);
    var i, j := hs[x], NextOf(hs, x, m);
    var y := O.FirstRule(b, i) + r;
    WholeParts(b, i, j, r);
    SpotLies(b, q.chains, k, i, j, r);
    SpotLies(b, q.chains, k, i, j, r + 1);
    EntryLies(b, n, y);
    InsideNoError(b, n, x, y);
    RuleHasKind(b, n, q, y);
    KindMeans(O.EntryNo(b, y), O.OffsetNo(b, y));
    JumpIs(b, y);
    if IsJump(b, y) {
      JumpLands(b, n, q, y);
    }
    TellsBy(b, q.chains, k, r, O.RuleNo(b, y), O.OffsetNo(b, y), O.OffsetNo(b, y + 1));
  }

  lemma {:induction false} TableWalks(b: Blob, n: nat)
    requires KernelTable(b, n)
    ensures n > 0 && Snapshot.Walked(b, n) == Some(b.size)
  {
    hide IsJump, JumpsToChain, O.Sortable, EndsWell, P.ReadFrom, Snapshot.Walked, O.Begins;
  }

  lemma {:induction false} TellsBy(b: Blob, qs: seq<ChainHead>, k: nat, r: nat, rule: RuleHead, off: nat, next: nat)
    requires var cs := P.Resolved(qs);
      && k < |qs| == |cs| && r < |qs[k].rules| == |cs[k].rules| && qs[k].rules[r] == rule
      && cs[k].rules[r] == P.ResolvedRule(qs, rule)
      && SpotOk(cs, Spot(k, r)) && Offset(cs, Spot(k, r)) == off
      && SpotOk(cs, Spot(k, r + 1)) && Offset(cs, Spot(k, r + 1)) == next
    requires EntryAt(b.entries, off, rule.entry) && next == off + EntrySize(rule.entry)
    requires var t := rule.entry.target;
      && t.name != ERROR_TARGET
      && match rule.kind
         case Standard => t.name == STANDARD_TARGET && t.verdict < 0
         case Module => t.name != STANDARD_TARGET
         case Fallthrough => t.name == STANDARD_TARGET && t.verdict == next
         case Jump(_) =>
           && t.name == STANDARD_TARGET && t.verdict != next
           && var cs, at := P.Resolved(qs), P.ChainAt(qs, t.verdict);
              && at.Some? && Lookup(Abs(cs), qs[at.value].name).Some?
              && var to := Lookup(Abs(cs), qs[at.value].name).value;
                 SpotOk(cs, Spot(to, 0)) && t.verdict == Offset(cs, Spot(to, 0))
    ensures EntryTells(P.Resolved(qs), b, Spot(k, r))
  {
    hide Lookup, Abs, Offset, P.Resolved, P.ChainAt, EntryAt, EntrySize, SpotOk;
  }

  // ------------------------------------------------------------------------------------- main result

  lemma {:induction false} ChainEndTells(b: Blob, n: nat, q: P.State, k: nat)
    requires KernelTable(b, n) && P.ReadFrom(b, P.START, 0) == P.Go(q) && k < |q.chains|
    ensures k < |P.Resolved(q.chains)| && EndTells(b, P.Resolved(q.chains)[k])
  {
    hide *;
    TableWalks(b, n);
    var hs, m := O.Begins(b, n - 1), n - 1;
    ResolvedAt(q.chains, k, 0);
    var x := ChainRead(b, n, q, k);
    TableEnds(b, n, x);
    var i, j := hs[x], NextOf(hs, x, m);
    WholeParts(b, i, j, 0);
    EntryLies(b, n, j - 1);
    EndsBy(b, i, j, P.Resolved(q.chains)[k]);
  }

  lemma {:induction false} EndsBy(b: Blob, i: nat, j: nat, c: ChainHead)
    requires j > 0 && EndsWell(b, i, j) && c.hook == O.HookNo(b, i) && c.footOffset == O.OffsetNo(b, j - 1)
    requires EntryAt(b.entries, c.footOffset, O.EntryNo(b, j - 1)) && c.verdict == O.EntryNo(b, j - 1).target.verdict
    ensures EndTells(b, c)
    ensures c.hook > 0 ==> c.hook - 1 in b.underflows && b.underflows[c.hook - 1] == c.footOffset
  {
    hide O.EntryNo, O.OffsetNo, O.HookNo;
  }

  /** The chains read from a kernel table tell the table. */
  lemma {:induction false} ReadTells(b: Blob, n: nat, q: P.State)
    requires KernelTable(b, n) && P.ReadFrom(b, P.START, 0) == P.Go(q)
    ensures Tells(P.Resolved(q.chains), b)
  {
    var cs := P.Resolved(q.chains);
    forall k, i | 0 <= k < |cs| && 0 <= i < |cs[k].rules| ensures EntryTells(cs, b, Spot(k, i)) {
      ResolvedAt(q.chains, k, 0);
      RuleTells(b, n, q, k, i);
    }
    forall k | 0 <= k < |cs| ensures EndTells(b, cs[k]) {
      ChainEndTells(b, n, q, k);
    }
    hide EntryTells, EndTells, P.Resolved;
  }

  /** No jump of a kernel table leads nowhere, so the table is read. */
  lemma {:induction false} NothingLost(b: Blob, n: nat, q: P.State, k: nat, r: nat)
    requires KernelTable(b, n) && P.ReadFrom(b, P.START, 0) == P.Go(q) && k < |q.chains| && r < |q.chains[k].rules|
    ensures !P.Lost(q.chains, q.chains[k].rules[r])
  {
    hide *;
    TableWalks(b, n);
    var x := ChainRead(b, n, q, k);
    var i, j := O.Begins(b, n - 1)[x], NextOf(O.Begins(b, n - 1), x, n - 1);
    var y := O.FirstRule(b, i) + r;
    WholeParts(b, i, j, r);
    InsideNoError(b, n, x, y);
    RuleHasKind(b, n, q, y);
    KindMeans(O.EntryNo(b, y), O.OffsetNo(b, y));
    JumpIs(b, y);
    if IsJump(b, y) {
      JumpLands(b, n, q, y);
    }
    LostIs(q.chains, q.chains[k].rules[r]);
  }

  lemma {:induction false} LostIs(qs: seq<ChainHead>, r: RuleHead)
    ensures P.Lost(qs, r) <==> r.kind.Jump? && P.ChainAt(qs, r.entry.target.verdict).None?
  {
    hide P.ChainAt;
  }

  lemma {:induction false} IsParsed(b: Blob, n: nat) returns (q: P.State)
    requires KernelTable(b, n)
    ensures P.ReadFrom(b, P.START, 0) == P.Go(q)
    ensures P.ParseOf(b) == P.Parsed(P.Resolved(q.chains), q.numChains, q.counts)
  {
    q := P.ReadFrom(b, P.START, 0).state;
    forall k, r | 0 <= k < |q.chains| && 0 <= r < |q.chains[k].rules| ensures !P.Lost(q.chains, q.chains[k].rules[r]) {
      NothingLost(b, n, q, k, r);
    }
    hide P.ReadFrom, P.Lost, P.Resolved;
  }

  /** The hook of a builtin chain leads to its first entry, and its underflow to its policy. */
  lemma {:induction false} HookTells(b: Blob, n: nat, q: P.State, k: nat)
    requires KernelTable(b, n) && P.ReadFrom(b, P.START, 0) == P.Go(q) && k < |q.chains| && q.chains[k].hook > 0
    ensures var cs, h := P.Resolved(q.chains), q.chains[k].hook - 1;
      && |cs| == |q.chains| && cs[k].hook == q.chains[k].hook && SpotOk(cs, Spot(k, 0))
      && h in b.hooks && b.hooks[h] == Offset(cs, Spot(k, 0))
      && h in b.underflows && b.underflows[h] == Offset(cs, Spot(k, |cs[k].rules|))
  {
    hide *;
    TableWalks(b, n);
    var hs := O.Begins(b, n - 1);
    var x := ChainRead(b, n, q, k);
    var i, j := hs[x], NextOf(hs, x, n - 1);
    ResolvedAt(q.chains, k, 0);
    WholeParts(b, i, j, 0);
    WholeParts(b, i, j, |q.chains[k].rules|);
    TableEnds(b, n, x);
    EntryLies(b, n, j - 1);
    EndsBy(b, i, j, P.Resolved(q.chains)[k]);
    SpotLies(b, q.chains, k, i, j, 0);
    SpotLies(b, q.chains, k, i, j, |q.chains[k].rules|);
    HookLeads(b, i);
  }

  lemma {:induction false} HookLeads(b: Blob, i: nat)
    requires O.HookNo(b, i) > 0
    ensures O.FirstRule(b, i) == i && O.HookNo(b, i) - 1 in b.hooks && b.hooks[O.HookNo(b, i) - 1] == O.OffsetNo(b, i)
  {
    hide O.OffsetNo, O.EntryNo;
  }

  /** Reading preserves meaning, in whatever order the kernel's user chains come: the table is read, its chains are in
      order, and for every packet and any number of steps, walking the kernel's table from a hook visits just the rules
      that walking the hook's chain visits, returns to the same places, and ends in the same verdict. */
  lemma {:induction false} ReadingPreservesMeaning(b: Blob, n: nat, o: Oracle, k: nat, steps: nat)
    requires KernelTable(b, n) && Unconditional(o)
    ensures P.ParseOf(b).Parsed? && Ordered(Abs(P.ParseOf(b).chains))
    ensures var cs := P.ParseOf(b).chains;
      k < |cs| && cs[k].hook > 0 ==>
        && cs[k].hook - 1 in b.hooks && cs[k].hook - 1 in b.underflows && k < |Abs(cs)|
        && StateOk(cs, Run(Abs(cs), o, steps, Start(Abs(cs), k)))
        && BlobRun(b, o, steps, BlobStart(b, cs[k].hook - 1)) == Image(cs, Run(Abs(cs), o, steps, Start(Abs(cs), k)))
  {
    hide *;
    var q := IsParsed(b, n);
    var cs := P.Resolved(q.chains);
    TableInOrder(b, n);
    ReadTells(b, n, q);
    ResolvedMany(q.chains);
    if k < |cs| && cs[k].hook > 0 {
      ResolvedAt(q.chains, k, 0);
      HookTells(b, n, q, k);
      StartTold(cs, b, k);
      RunTold(cs, b, o, steps, Start(Abs(cs), k));
    }
  }

  lemma {:induction false} ResolvedMany(qs: seq<ChainHead>)
    ensures |P.Resolved(qs)| == |qs|
  {
  }

  lemma {:induction false} TableInOrder(b: Blob, n: nat)
    requires KernelTable(b, n) && P.ParseOf(b).Parsed?
    ensures Ordered(Abs(P.ParseOf(b).chains))
  {
    hide *;
    TableWalks(b, n);
    TableSorts(b, n);
    LastBeginsNone(b, n);
    ReadsAll(b, n);
    O.ParsedInOrder(b, n);
  }

  lemma {:induction false} ReadsAll(b: Blob, n: nat)
    requires KernelTable(b, n)
    ensures P.ReadFrom(b, P.START, 0).Go?
  {
    hide IsJump, JumpsToChain, O.Sortable, EndsWell, P.ReadFrom, Snapshot.Walked, O.Begins;
  }

  /** The last entry begins no chain. */
  lemma {:induction false} LastBeginsNone(b: Blob, n: nat)
    requires n > 0 && Snapshot.Walked(b, n) == Some(b.size)
    ensures O.Begins(b, n) == O.Begins(b, n - 1)
  {
    O.WalkedBefore(b, n - 1, n);
    var off := O.OffsetNo(b, n - 1);
    O.EntryNoIs(b, n - 1, off, b.entries[off]);
    O.NextOffset(b, n - 1, off, b.entries[off]);
    O.OffsetLast(b, n);
    hide O.OffsetNo, O.EntryNo, O.IsError, P.HookAt;
  }

  lemma {:induction false} StartTold(cs: seq<ChainHead>, b: Blob, k: nat)
    requires k < |cs| && cs[k].hook > 0 && SpotOk(cs, Spot(k, 0))
    requires var h := cs[k].hook - 1;
      && h in b.hooks && b.hooks[h] == Offset(cs, Spot(k, 0))
      && h in b.underflows && b.underflows[h] == Offset(cs, Spot(k, |cs[k].rules|))
    ensures k < |Abs(cs)| && StateOk(cs, Start(Abs(cs), k))
    ensures Image(cs, Start(Abs(cs), k)) == BlobStart(b, cs[k].hook - 1)
  {
    AbsAt(cs, k);
    var end := Spot(k, |cs[k].rules|);
    assert Offsets(cs, [end]) == [Offset(cs, end)];
    assert Offsets(cs, []) == [];
  }
}
