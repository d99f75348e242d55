/** What a packet does in a table: walking the chains, walking the blob, and why the two walks agree. */
module Walk {
  import opened Names
  import opened Seqs
  import opened Rulesets
  import opened Editing
  import opened Cache
  import opened HandleFacts
  import opened Handles
  import opened Layout
  import opened Compiler

  /** How rules and extension targets answer for one packet.  The answer may depend on the number of steps
      already made, as it does for matches and targets that keep state; a target that answers `None` lets
      the packet go on. */
  datatype Oracle = Oracle(
    matches: (nat, Ip, seq<Match>) -> bool,
    extension: (nat, Name, Bytes) -> Option<int>)

  /** A rule without any condition matches every packet. */
  ghost predicate Unconditional(o: Oracle) {
    forall t: nat :: o.matches(t, BLANK_IP, [])
  }

  // ---------------------------------------------------------------------------- walking the chains

  /** Rule `rule` of chain `chain`; the place after the last rule is the chain's end. */
  datatype Spot = Spot(chain: nat, rule: nat)

  /** A walk over places of type `P`: where it is, where it returns to, and all places visited so far. */
  datatype State<P> =
    | At(place: P, back: seq<P>, trail: seq<P>)
    | Ended(verdict: int, trail: seq<P>)
    | Stuck(trail: seq<P>)

  function Return<P>(back: seq<P>, trail: seq<P>): State<P> {
    if back == [] then Stuck(trail) else At(back[0], back[1..], trail)
  }

  /** One step of a packet through the chains. */
  function Step(rs: Ruleset, o: Oracle, t: nat, s: State<Spot>): State<Spot> {
    if !s.At? then s
    else
      var p, back := s.place, s.back;
      var trail := s.trail + [p];
      if p.chain >= |rs| || p.rule > |rs[p.chain].rules| then Stuck(trail)
      else if p.rule == |rs[p.chain].rules| then
        var policy := rs[p.chain].policy;
        if policy == RETURN then Return(back, trail) else Ended(policy, trail)
      else
        var r := rs[p.chain].rules[p.rule];
        var next := At(Spot(p.chain, p.rule + 1), back, trail);
        if !o.matches(t, r.ip, r.matches) then next
        else
          match r.action
          case Verdict(v) => if v == RETURN then Return(back, trail) else Ended(v, trail)
          case Extension(name, data) =>
            (match o.extension(t, name, data)
             case None => next
             case Some(v) => Ended(v, trail))
          case Continue => next
          case Call(name) =>
            (match Lookup(rs, name)
             case None => Stuck(trail)
             case Some(k) => At(Spot(k, 0), [Spot(p.chain, p.rule + 1)] + back, trail))
  }

  function Run(rs: Ruleset, o: Oracle, n: nat, s: State<Spot>): State<Spot> {
    if n == 0 then s else Step(rs, o, n - 1, Run(rs, o, n - 1, s))
  }

  /** A packet enters builtin chain `k`; a return there leads to the chain's policy. */
  function Start(rs: Ruleset, k: nat): State<Spot>
    requires k < |rs|
  {
    At(Spot(k, 0), [Spot(k, |rs[k].rules|)], [])
  }

  // ------------------------------------------------------------------------------ walking the blob

  /** One step of a packet through the blob, as the kernel takes it. */
  function BlobStep(b: Blob, o: Oracle, t: nat, s: State<nat>): State<nat> {
    if !s.At? then s
    else
      var off, back := s.place, s.back;
      var trail := s.trail + [off];
      if off !in b.entries then Stuck(trail)
      else
        var e := b.entries[off];
        var next := off + EntrySize(e);
        if !o.matches(t, e.ip, e.matches) then At(next, back, trail)
        else if e.target.name == STANDARD_TARGET then
          var v := e.target.verdict;
          if v == RETURN then Return(back, trail)
          else if v < 0 then Ended(v, trail)
          else if v == next then At(next, back, trail)
          else At(v, [next] + back, trail)
        else if e.target.name == ERROR_TARGET then Stuck(trail)
        else
          match o.extension(t, e.target.name, e.target.data)
          case None => At(next, back, trail)
          case Some(v) => Ended(v, trail)
  }

  function BlobRun(b: Blob, o: Oracle, n: nat, s: State<nat>): State<nat> {
    if n == 0 then s else BlobStep(b, o, n - 1, BlobRun(b, o, n - 1, s))
  }

  function BlobStart(b: Blob, hook: nat): State<nat>
    requires hook in b.hooks && hook in b.underflows
  {
    At(b.hooks[hook], [b.underflows[hook]], [])
  }

  // ------------------------------------------------------------------------------- compiled tables

  /** Jumps lead behind the error node of the chain that they name, fallthroughs to the next entry. */
  ghost predicate VerdictOk(cs: seq<ChainHead>, r: RuleHead) {
    match r.kind
    case Jump(name) =>
      && r.entry.target.name == STANDARD_TARGET
      && exists j :: 0 <= j < |cs| && cs[j].name == name && cs[j].hook == 0
                     && r.entry.target.verdict == cs[j].headOffset + HEAD_SIZE
    case Fallthrough => r.entry.target.verdict == r.offset + r.size
    case _ => true
  }

  ghost predicate VerdictsOk(cs: seq<ChainHead>) {
    forall k, i :: 0 <= k < |cs| && 0 <= i < |cs[k].rules| ==> VerdictOk(cs, cs[k].rules[i])
  }

  /** The blob has been compiled from the chains. */
  ghost predicate Compiled(cs: seq<ChainHead>, b: Blob) {
    && WellFormed(Abs(cs)) && KindsOk(cs) && SizesOk(cs) && Ready(cs)
    && Placed(cs) && VerdictsOk(cs) && IsImage(b, cs)
  }

  lemma {:induction false} FilledVerdict(cs: seq<ChainHead>, cs': seq<ChainHead>, r: RuleHead)
    requires WellFormed(Abs(cs)) && TableFilled(cs, cs', |cs|) && RuleOk(Abs(cs), AbsRule(r)) && KindOk(r)
    ensures VerdictOk(cs', Filled(cs, r))
  {
    if r.kind.Jump? {
      Heads(cs);
      var j := Lookup(Abs(cs), r.kind.target);
      var u :| 0 <= u < |Abs(cs)| && Abs(cs)[u].name == r.kind.target && Abs(cs)[u].hook == 0;
      LookupAt(Abs(cs), u);
      assert cs'[u].name == cs[u].name && cs'[u].hook == cs[u].hook && cs'[u].headOffset == cs[u].headOffset;
    }
  }

  lemma {:induction false} FilledIsCompiled(cs: seq<ChainHead>, cs': seq<ChainHead>, b: Blob)
    requires WellFormed(Abs(cs)) && KindsOk(cs) && Ready(cs) && TableFilled(cs, cs', |cs|)
    requires Abs(cs') == Abs(cs) && KindsOk(cs') && SizesOk(cs') && Placed(cs') && IsImage(b, cs')
    ensures Compiled(cs', b)
  {
    forall k, i | 0 <= k < |cs'| && 0 <= i < |cs'[k].rules|
      ensures VerdictOk(cs', cs'[k].rules[i]) && ReadyRule(cs'[k].rules[i])
    {
      assert ChainFilled(cs, cs[k], cs'[k], |cs[k].rules|);
      AbsAt(cs, k);
      assert RuleOk(Abs(cs), Abs(cs)[k].rules[i]);
      FilledVerdict(cs, cs', cs[k].rules[i]);
      FilledSame(cs, cs[k].rules[i]);
    }
  }

  lemma {:induction false} PlacedIsReady(cs: seq<ChainHead>, cs': seq<ChainHead>)
    requires SameTable(cs, cs') && Ready(cs)
    ensures Ready(cs')
  {
    forall k, i | 0 <= k < |cs'| && 0 <= i < |cs'[k].rules| ensures ReadyRule(cs'[k].rules[i]) {
      assert SameHead(cs[k], cs'[k]) && SameRule(cs[k].rules[i], cs'[k].rules[i]);
      SameRuleReady(cs[k].rules[i], cs'[k].rules[i]);
    }
  }

  lemma {:induction false} SameRuleReady(r: RuleHead, r': RuleHead)
    requires SameRule(r, r') && ReadyRule(r)
    ensures ReadyRule(r')
  {
    assert AbsRule(r').targetSize == AbsRule(r).targetSize && AbsRule(r').action == AbsRule(r).action;
  }

  /** Both passes of the compiler: the blob stands for the same ruleset as before. */
  method Compile(h: Handle) returns (b: Blob, number: nat)
    requires h.Valid() && Ready(h.chains)
    modifies h`chains
    ensures h.Valid() && h.Rules() == old(h.Rules())
    ensures SameTable(old(h.chains), h.chains)
    ensures Compiled(h.chains, b) && number == |b.entries| == TableCount(h.chains)
  {
    ghost var cs := h.chains;
    var size;
    number, size := CompilePrep(h);
    ghost var placed := h.chains;
    SameTableOk(cs, placed, h.numChains, h.index, h.original);
    PlacedIsReady(cs, placed);
    b := CompileTable(h, size);
    SameTableOk(placed, h.chains, h.numChains, h.index, h.original);
    FilledIsCompiled(placed, h.chains, b);
    SameTableTransitive(cs, placed, h.chains);
    SameBases(placed, h.chains, |placed|);
  }

  // --------------------------------------------------------------------------------- where spots lie

  ghost predicate SpotOk(cs: seq<ChainHead>, p: Spot) {
    p.chain < |cs| && p.rule <= |cs[p.chain].rules|
  }

  /** The offset of a rule, or of the foot for the chain's end. */
  ghost function Offset(cs: seq<ChainHead>, p: Spot): nat
    requires SpotOk(cs, p)
  {
    if p.rule < |cs[p.chain].rules| then cs[p.chain].rules[p.rule].offset else cs[p.chain].footOffset
  }

  lemma {:induction false} PlaceInChain(c: ChainHead, off: nat, num: nat, i: nat)
    requires ChainPlaced(c, off, num) && i < |c.rules|
    ensures c.rules[i].offset == off + HeadSize(c) + SizeUpTo(c.rules, i)
    ensures (if i + 1 < |c.rules| then c.rules[i + 1].offset else c.footOffset)
         == c.rules[i].offset + c.rules[i].size
  {
    assert c.rules[i].offset == off + HeadSize(c) + SizeUpTo(c.rules, i);
    assert i + 1 < |c.rules| ==> c.rules[i + 1].offset == off + HeadSize(c) + SizeUpTo(c.rules, i + 1);
    hide RulesPlaced;
    assert SizeUpTo(c.rules, i + 1) == SizeUpTo(c.rules, i) + c.rules[i].size;
  }

  lemma {:induction false} ChainIsPlaced(cs: seq<ChainHead>, k: nat)
    requires Placed(cs) && k < |cs|
    ensures ChainPlaced(cs[k], Base(cs, k), BaseCount(cs, k))
  {
    hide ChainPlaced, Base, BaseCount;
  }

  lemma {:induction false} FootInChain(c: ChainHead, off: nat, num: nat)
    requires ChainPlaced(c, off, num)
    ensures c.footOffset == off + HeadSize(c) + SizeUpTo(c.rules, |c.rules|)
  {
    hide RulesPlaced, SizeUpTo;
  }

  lemma {:induction false} OffsetIs(cs: seq<ChainHead>, p: Spot)
    requires Placed(cs) && SpotOk(cs, p)
    ensures Offset(cs, p) == Base(cs, p.chain) + HeadSize(cs[p.chain]) + SizeUpTo(cs[p.chain].rules, p.rule)
  {
    var c := cs[p.chain];
    ChainIsPlaced(cs, p.chain);
    hide Placed, ChainPlaced, Base, BaseCount, SizeUpTo, HeadSize;
    if p.rule < |c.rules| {
      PlaceInChain(c, Base(cs, p.chain), BaseCount(cs, p.chain), p.rule);
    } else {
      FootInChain(c, Base(cs, p.chain), BaseCount(cs, p.chain));
    }
  }

  lemma {:induction false} NextOffset(cs: seq<ChainHead>, p: Spot)
    requires Placed(cs) && SpotOk(cs, p) && p.rule < |cs[p.chain].rules|
    ensures Offset(cs, Spot(p.chain, p.rule + 1)) == Offset(cs, p) + cs[p.chain].rules[p.rule].size
  {
    var rules := cs[p.chain].rules;
    assert SizeUpTo(rules, p.rule + 1) == SizeUpTo(rules, p.rule) + rules[p.rule].size;
    hide Placed, Offset, Base, HeadSize, SizeUpTo;
    OffsetIs(cs, p);
    OffsetIs(cs, Spot(p.chain, p.rule + 1));
  }

  /** Offsets grow along the chains and from chain to chain. */
  lemma {:induction false} OffsetsGrow(cs: seq<ChainHead>, p: Spot, q: Spot)
    requires Placed(cs) && SpotOk(cs, p) && SpotOk(cs, q)
    requires p.chain < q.chain || (p.chain == q.chain && p.rule < q.rule)
    ensures Offset(cs, p) < Offset(cs, q)
  {
    OffsetIs(cs, p);
    OffsetIs(cs, q);
    var c := cs[p.chain];
    if p.chain == q.chain {
      SizeUpToMonotone(c.rules, p.rule, q.rule);
    } else {
      SizeUpToMonotone(c.rules, p.rule, |c.rules|);
      BaseMonotone(cs, p.chain, q.chain);
    }
  }

  /** Different spots lie at different offsets, so a trail of offsets tells which rules were visited. */
  lemma {:induction false} OffsetsDiffer(cs: seq<ChainHead>, p: Spot, q: Spot)
    requires Placed(cs) && SpotOk(cs, p) && SpotOk(cs, q) && Offset(cs, p) == Offset(cs, q)
    ensures p == q
  {
    if p.chain < q.chain || (p.chain == q.chain && p.rule < q.rule) {
      OffsetsGrow(cs, p, q);
    } else if p != q {
      OffsetsGrow(cs, q, p);
    }
  }

  /** What lies in the blob at a spot. */
  lemma {:induction false} EntryOf(cs: seq<ChainHead>, b: Blob, p: Spot)
    requires Compiled(cs, b) && SpotOk(cs, p)
    ensures EntryAt(b.entries, Offset(cs, p),
      if p.rule < |cs[p.chain].rules| then cs[p.chain].rules[p.rule].entry else FootOf(cs[p.chain]))
  {
    assert HoldsChain(b.entries, cs[p.chain]);
  }

  // ------------------------------------------------------------------------------------- simulation

  ghost predicate SpotsOk(cs: seq<ChainHead>, ps: seq<Spot>) {
    forall i :: 0 <= i < |ps| ==> SpotOk(cs, ps[i])
  }

  ghost predicate StateOk(cs: seq<ChainHead>, s: State<Spot>) {
    SpotsOk(cs, s.trail) && (s.At? ==> SpotOk(cs, s.place) && SpotsOk(cs, s.back))
  }

  ghost function Offsets(cs: seq<ChainHead>, ps: seq<Spot>): (os: seq<nat>)
    requires SpotsOk(cs, ps)
    ensures |os| == |ps| && forall i :: 0 <= i < |ps| ==> os[i] == Offset(cs, ps[i])
  {
    seq(|ps|, i requires 0 <= i < |ps| => Offset(cs, ps[i]))
  }

  /** A walk over chains seen as a walk over the blob. */
  ghost function Image(cs: seq<ChainHead>, s: State<Spot>): State<nat>
    requires StateOk(cs, s)
  {
    match s
    case At(p, back, trail) => At(Offset(cs, p), Offsets(cs, back), Offsets(cs, trail))
    case Ended(v, trail) => Ended(v, Offsets(cs, trail))
    case Stuck(trail) => Stuck(Offsets(cs, trail))
  }

  lemma {:induction false} OffsetsConcat(cs: seq<ChainHead>, ps: seq<Spot>, qs: seq<Spot>)
    requires SpotsOk(cs, ps) && SpotsOk(cs, qs)
    ensures SpotsOk(cs, ps + qs) && Offsets(cs, ps + qs) == Offsets(cs, ps) + Offsets(cs, qs)
  {
  }

  lemma {:induction false} ReturnAgrees(cs: seq<ChainHead>, back: seq<Spot>, trail: seq<Spot>)
    requires SpotsOk(cs, back) && SpotsOk(cs, trail)
    ensures StateOk(cs, Return(back, trail))
    ensures Image(cs, Return(back, trail)) == Return(Offsets(cs, back), Offsets(cs, trail))
  {
    if back != [] {
      assert Offsets(cs, back)[1..] == Offsets(cs, back[1..]);
    }
  }

  /** A compiled jump goes to the first place of the chain that it names, and never looks like a
      fallthrough: the next place is never the first one of a user chain. */
  lemma {:induction false} JumpLandsRight(cs: seq<ChainHead>, b: Blob, p: Spot, k: nat)
    requires Compiled(cs, b) && SpotOk(cs, p) && p.rule < |cs[p.chain].rules|
    requires cs[p.chain].rules[p.rule].kind.Jump?
    requires Lookup(Abs(cs), cs[p.chain].rules[p.rule].kind.target) == Some(k)
    ensures k < |cs| && cs[k].hook == 0
    ensures cs[p.chain].rules[p.rule].entry.target.verdict == Offset(cs, Spot(k, 0))
    ensures Offset(cs, Spot(k, 0)) != Offset(cs, Spot(p.chain, p.rule + 1))
    ensures Spot(k, 0) != Spot(p.chain, p.rule + 1)
  {
    var r := cs[p.chain].rules[p.rule];
    assert VerdictOk(cs, r);
    var j :| 0 <= j < |cs| && cs[j].name == r.kind.target && cs[j].hook == 0
             && r.entry.target.verdict == cs[j].headOffset + HEAD_SIZE;
    Heads(cs);
    assert Abs(cs)[j].name == r.kind.target;
    LookupAt(Abs(cs), j);
    assert j == k;
    OffsetIs(cs, Spot(k, 0));
    assert ChainPlaced(cs[k], Base(cs, k), BaseCount(cs, k));
    if Offset(cs, Spot(k, 0)) == Offset(cs, Spot(p.chain, p.rule + 1)) {
      OffsetsDiffer(cs, Spot(k, 0), Spot(p.chain, p.rule + 1));
    }
  }

  /** What a rule's entry in the blob tells the kernel. */
  ghost predicate EntryTells(cs: seq<ChainHead>, b: Blob, p: Spot)
    requires SpotOk(cs, p) && p.rule < |cs[p.chain].rules|
  {
    var r := cs[p.chain].rules[p.rule];
    var t := r.entry.target;
    var next := Offset(cs, Spot(p.chain, p.rule + 1));
    && EntryAt(b.entries, Offset(cs, p), r.entry)
    && next == Offset(cs, p) + EntrySize(r.entry)
    && match r.kind
       case Standard => t.name == STANDARD_TARGET && t.verdict < 0
       case Module => t.name != STANDARD_TARGET && t.name != ERROR_TARGET
       case Fallthrough => t.name == STANDARD_TARGET && t.verdict == next
       case Jump(name) =>
         && t.name == STANDARD_TARGET && Lookup(Abs(cs), name).Some?
         && SpotOk(cs, Spot(Lookup(Abs(cs), name).value, 0))
         && t.verdict == Offset(cs, Spot(Lookup(Abs(cs), name).value, 0)) && t.verdict != next
  }

  lemma {:induction false} EntriesTell(cs: seq<ChainHead>, b: Blob, p: Spot)
    requires Compiled(cs, b) && SpotOk(cs, p) && p.rule < |cs[p.chain].rules|
    ensures EntryTells(cs, b, p)
  {
    var r := cs[p.chain].rules[p.rule];
    AbsAt(cs, p.chain);
    assert Abs(cs)[p.chain].rules[p.rule] == AbsRule(r);
    assert RuleOk(Abs(cs), AbsRule(r)) && KindOk(r) && SizeOk(r) && ReadyRule(r) && VerdictOk(cs, r);
    EntryOf(cs, b, p);
    NextOffset(cs, p);
    if r.kind.Jump? {
      var j :| 0 <= j < |Abs(cs)| && Abs(cs)[j].name == r.kind.target && Abs(cs)[j].hook == 0;
      LookupAt(Abs(cs), j);
      JumpLandsRight(cs, b, p, j);
    }
  }

  /** At a rule, one step over the chains is one step over the blob. */
  lemma {:induction false} RuleStepAgrees(cs: seq<ChainHead>, b: Blob, o: Oracle, t: nat, s: State<Spot>)
    requires StateOk(cs, s) && s.At? && s.place.rule < |cs[s.place.chain].rules| && EntryTells(cs, b, s.place)
    ensures StateOk(cs, Step(Abs(cs), o, t, s))
    ensures BlobStep(b, o, t, Image(cs, s)) == Image(cs, Step(Abs(cs), o, t, s))
  {
    var p := s.place;
    var next := Spot(p.chain, p.rule + 1);
    var r := cs[p.chain].rules[p.rule];
    AbsAt(cs, p.chain);
    assert Abs(cs)[p.chain].rules[p.rule] == AbsRule(r);
    var trail := s.trail + [p];
    OffsetsConcat(cs, s.trail, [p]);
    assert Offsets(cs, [p]) == [Offset(cs, p)];
    assert Image(cs, At(next, s.back, trail)) == At(Offset(cs, next), Offsets(cs, s.back), Offsets(cs, trail));
    if o.matches(t, r.entry.ip, r.entry.matches) {
      match r.kind {
        case Standard => ReturnAgrees(cs, s.back, trail);
        case Jump(name) =>
          OffsetsConcat(cs, [next], s.back);
          assert Offsets(cs, [next]) == [Offset(cs, next)];
        case _ =>
      }
    }
  }

  /** At a chain's end likewise. */
  lemma {:induction false} EndStepAgrees(cs: seq<ChainHead>, b: Blob, o: Oracle, t: nat, s: State<Spot>)
    requires Compiled(cs, b) && StateOk(cs, s) && s.At? && s.place.rule == |cs[s.place.chain].rules|
    requires Unconditional(o) && (cs[s.place.chain].hook > 0 ==> cs[s.place.chain].verdict < 0)
    ensures StateOk(cs, Step(Abs(cs), o, t, s))
    ensures BlobStep(b, o, t, Image(cs, s)) == Image(cs, Step(Abs(cs), o, t, s))
  {
    var p := s.place;
    AbsAt(cs, p.chain);
    EntryOf(cs, b, p);
    OffsetsConcat(cs, s.trail, [p]);
    assert Offsets(cs, [p]) == [Offset(cs, p)];
    ReturnAgrees(cs, s.back, s.trail + [p]);
    assert o.matches(t, BLANK_IP, []);
  }

  /** Policies are verdicts, not offsets. */
  ghost predicate PoliciesOk(cs: seq<ChainHead>) {
    forall k :: 0 <= k < |cs| && cs[k].hook > 0 ==> cs[k].verdict < 0
  }

  lemma {:induction false} RunsAgree(cs: seq<ChainHead>, b: Blob, o: Oracle, n: nat, s: State<Spot>)
    requires Compiled(cs, b) && StateOk(cs, s) && Unconditional(o) && PoliciesOk(cs)
    ensures StateOk(cs, Run(Abs(cs), o, n, s))
    ensures BlobRun(b, o, n, Image(cs, s)) == Image(cs, Run(Abs(cs), o, n, s))
  {
    hide Compiled, Step, BlobStep, PoliciesOk, StateOk, Image, Unconditional, Abs;
    if n > 0 {
      RunsAgree(cs, b, o, n - 1, s);
      StepsAgree(cs, b, o, n - 1, Run(Abs(cs), o, n - 1, s));
    }
  }

  lemma {:induction false} StepsAgree(cs: seq<ChainHead>, b: Blob, o: Oracle, t: nat, s: State<Spot>)
    requires Compiled(cs, b) && StateOk(cs, s) && Unconditional(o) && PoliciesOk(cs)
    ensures StateOk(cs, Step(Abs(cs), o, t, s))
    ensures BlobStep(b, o, t, Image(cs, s)) == Image(cs, Step(Abs(cs), o, t, s))
  {
    if s.At? {
      hide Compiled, Step, BlobStep;
      if s.place.rule < |cs[s.place.chain].rules| {
        EntriesTell(cs, b, s.place);
        RuleStepAgrees(cs, b, o, t, s);
      } else {
        EndStepAgrees(cs, b, o, t, s);
      }
    }
  }

  /** Compilation preserves meaning: for every packet and any number of steps, entering the blob at a hook
      visits just the rules that entering the hook's builtin chain visits, in the same order, returns to
      the same places, and ends in the same verdict. */
  lemma {:induction false} MeaningPreserved(cs: seq<ChainHead>, b: Blob, o: Oracle, k: nat, n: nat)
    requires Compiled(cs, b) && Unconditional(o) && PoliciesOk(cs) && k < |cs| && cs[k].hook > 0
    ensures cs[k].hook - 1 in b.hooks && cs[k].hook - 1 in b.underflows && k < |Abs(cs)|
    ensures StateOk(cs, Run(Abs(cs), o, n, Start(Abs(cs), k)))
    ensures BlobRun(b, o, n, BlobStart(b, cs[k].hook - 1)) == Image(cs, Run(Abs(cs), o, n, Start(Abs(cs), k)))
  {
    assert HookHeld(b, cs[k]);
    StartAgrees(cs, b, k);
    RunsAgree(cs, b, o, n, Start(Abs(cs), k));
  }

  lemma {:induction false} StartAgrees(cs: seq<ChainHead>, b: Blob, k: nat)
    requires Placed(cs) && k < |cs| && cs[k].hook > 0 && HookHeld(b, cs[k])
    ensures k < |Abs(cs)| && StateOk(cs, Start(Abs(cs), k))
    ensures Image(cs, Start(Abs(cs), k)) == BlobStart(b, cs[k].hook - 1)
  {
    AbsAt(cs, k);
    FirstOffset(cs, k);
    var end := Spot(k, |cs[k].rules|);
    assert Offsets(cs, [end]) == [cs[k].footOffset];
    assert Offsets(cs, []) == [];
  }

  /** The kernel's numbers of the hooks. */
  function HookNumber(name: Name): Option<nat> {
    if name == "PREROUTING" then Some(0)
    else if name == "INPUT" then Some(1)
    else if name == "FORWARD" then Some(2)
    else if name == "OUTPUT" then Some(3)
    else if name == "POSTROUTING" then Some(4)
    else None
  }

  /** The packets of a hook enter the builtin chain that is named after it. */
  lemma {:induction false} HookByName(cs: seq<ChainHead>, b: Blob, k: nat)
    requires Compiled(cs, b) && k < |cs| && cs[k].hook > 0
    ensures HookNumber(cs[k].name) == Some(cs[k].hook - 1)
    ensures cs[k].hook - 1 in b.hooks && b.hooks[cs[k].hook - 1] == Offset(cs, Spot(k, 0))
  {
    hide *;
    HookIn(cs, b, k);
    HookNamed(cs, k);
    FirstOffset(cs, k);
  }

  lemma {:induction false} HookIn(cs: seq<ChainHead>, b: Blob, k: nat)
    requires Compiled(cs, b) && k < |cs| && cs[k].hook > 0
    ensures Placed(cs) && HooksOk(Abs(cs))
    ensures cs[k].hook - 1 in b.hooks && b.hooks[cs[k].hook - 1] == cs[k].headOffset
  {
    assert HookHeld(b, cs[k]);
    hide Placed, HooksOk, NamesDiffer, Ordered, RulesOk, KindsOk, SizesOk, Ready, VerdictsOk, HoldsUpTo;
  }

  lemma {:induction false} HookNamed(cs: seq<ChainHead>, k: nat)
    requires HooksOk(Abs(cs)) && k < |cs| && cs[k].hook > 0
    ensures HookNumber(cs[k].name) == Some(cs[k].hook - 1)
  {
    Heads(cs);
    hide Abs;
  }

  lemma {:induction false} FirstOffset(cs: seq<ChainHead>, k: nat)
    requires Placed(cs) && k < |cs| && cs[k].hook > 0
    ensures Offset(cs, Spot(k, 0)) == cs[k].headOffset
  {
    OffsetIs(cs, Spot(k, 0));
    assert ChainPlaced(cs[k], Base(cs, k), BaseCount(cs, k));
  }
}
