/** Reading the kernel's blob back into cached chains: a first pass over all entries, then the resolution of
    jump offsets to chains. */
module Parser {
  import opened Names
  import opened Seqs
  import opened Rulesets
  import opened Cache
  import opened HandleFacts
  import opened Layout
  import opened Compiler

  // ------------------------------------------------------------------------------------ first pass

  /** What the first pass carries along: the chains so far, the place of the chain being read, the number
      of user chains, the number of entries read, and their counters in order. */
  datatype State = State(chains: seq<ChainHead>, cur: Option<nat>, numChains: nat, num: nat, counts: seq<Counters>)

  /** The pass goes on, stops early (which the second pass does not notice), or meets a blob on which the
      library would follow a pointer to nowhere. */
  datatype Progress = Go(state: State) | Stop(state: State) | Undefined

  const START := State([], None, 0, 0, [])

  /** The last rule read becomes the policy of the chain being read. */
  function DelPolicy(p: State): Progress {
    if p.cur.None? then Go(p)
    else if p.cur.value >= |p.chains| || p.chains[p.cur.value].rules == [] || p.num == 0
            || p.chains[p.cur.value].numRules == 0 then Undefined
    else
      var c := p.chains[p.cur.value];
      var policy := c.rules[|c.rules| - 1];
      Go(p.(chains := p.chains[p.cur.value := c.(
        verdict := policy.entry.target.verdict, counters := policy.entry.counters,
        counterMap := NormalMap(p.num - 1), footIndex := p.num, footOffset := policy.offset,
        rules := c.rules[..|c.rules| - 1], numRules := c.numRules - 1)]))
  }

  /** Starts a chain at `off`: builtin chains go to the end, user chains to their place in the order. */
  function AddChain(p: State, c: ChainHead, off: nat): Progress {
    match DelPolicy(p)
    case Go(q) =>
      var c' := c.(headOffset := off, index := q.num);
      var n := |q.chains|;
      var at := if c.hook > 0 || n == 0 || Compare(c.name, q.chains[n - 1].name) > 0 then n
                else Place(Abs(q.chains), c.name);
      Go(q.(chains := InsertAt(q.chains, at, c'), cur := Some(at)))
    case other => other
  }

  /** The type of a rule as read from its target; jumps are left unresolved. */
  function KindOf(e: Entry, off: nat): Option<Kind> {
    if e.target.name == STANDARD_TARGET then
      if !IsStandardSized(e.target) then None
      else if e.target.verdict < 0 then Some(Standard)
      else if e.target.verdict == off + EntrySize(e) then Some(Fallthrough)
      else Some(Jump(""))
    else Some(Module)
  }

  function AddRule(p: State, e: Entry, off: nat): Progress {
    if p.cur.None? || p.cur.value >= |p.chains| then Undefined
    else
      match KindOf(e, off)
      case None => Stop(p)
      case Some(kind) =>
        var c := p.chains[p.cur.value];
        var r := RuleHead(kind, e, EntrySize(e), NormalMap(p.num), p.num, off);
        Go(p.(chains := p.chains[p.cur.value := c.(rules := c.rules + [r], numRules := c.numRules + 1)]))
  }

  /** The first hook whose entry point is at `off`, plus one; 0 if there is none. */
  function HookFrom(b: Blob, off: nat, i: nat): (h: nat)
    requires i <= NUM_HOOKS
    ensures h <= NUM_HOOKS
    ensures h > 0 ==> i < h && h - 1 in b.hooks && b.hooks[h - 1] == off
    ensures h == 0 ==> forall j :: i <= j < NUM_HOOKS && j in b.hooks ==> b.hooks[j] != off
    decreases NUM_HOOKS - i
  {
    if i == NUM_HOOKS then 0
    else if i in b.hooks && b.hooks[i] == off then i + 1
    else HookFrom(b, off, i + 1)
  }

  function HookAt(b: Blob, off: nat): nat { HookFrom(b, off, 0) }

  /** One more entry counted. */
  function Counted(g: Progress, e: Entry): Progress {
    match g
    case Go(p) => Go(p.(num := p.num + 1, counts := p.counts + [e.counters]))
    case other => other
  }

  function AddEntry(b: Blob, p: State, e: Entry, off: nat): Progress {
    if off + EntrySize(e) == b.size then
      (match DelPolicy(p)
       case Go(q) => Counted(Go(q.(cur := None)), e)
       case other => other)
    else if e.target.name == ERROR_TARGET then
      Counted(AddChain(p.(numChains := p.numChains + 1), NewChain(e.target.text, 0), off), e)
    else if HookAt(b, off) > 0 then
      (match AddChain(p, NewChain(HOOK_NAMES[HookAt(b, off) - 1], HookAt(b, off)), off)
       case Go(q) => Counted(AddRule(q, e, off), e)
       case other => other)
    else
      Counted(AddRule(p, e, off), e)
  }

  /** The first pass from offset `off` on. */
  function ReadFrom(b: Blob, p: State, off: nat): Progress
    decreases b.size - off
  {
    if off >= b.size then Go(p)
    else if off !in b.entries then Undefined
    else
      match AddEntry(b, p, b.entries[off], off)
      case Go(q) => ReadFrom(b, q, off + EntrySize(b.entries[off]))
      case other => other
  }

  // ----------------------------------------------------------------------------------- second pass

  /** The first chain in whose bytes `off` lies. */
  function ChainAt(cs: seq<ChainHead>, off: int): (r: Option<nat>)
    ensures r.Some? ==> r.value < |cs| && cs[r.value].headOffset <= off <= cs[r.value].footOffset
    ensures r.Some? ==> forall j :: 0 <= j < r.value ==> !(cs[j].headOffset <= off <= cs[j].footOffset)
    ensures r.None? ==> forall j :: 0 <= j < |cs| ==> !(cs[j].headOffset <= off <= cs[j].footOffset)
  {
    if cs == [] then None
    else
      var front := ChainAt(cs[..|cs| - 1], off);
      if front.Some? then front
      else if cs[|cs| - 1].headOffset <= off <= cs[|cs| - 1].footOffset then Some(|cs| - 1)
      else None
  }

  predicate Lost(cs: seq<ChainHead>, r: RuleHead) {
    r.kind.Jump? && ChainAt(cs, r.entry.target.verdict).None?
  }

  /** Some jump leads into no chain. */
  ghost predicate HasLost(cs: seq<ChainHead>) {
    exists k, i :: 0 <= k < |cs| && 0 <= i < |cs[k].rules| && Lost(cs, cs[k].rules[i])
  }

  function ResolvedRule(cs: seq<ChainHead>, r: RuleHead): RuleHead {
    if r.kind.Jump? && ChainAt(cs, r.entry.target.verdict).Some?
    then r.(kind := Jump(cs[ChainAt(cs, r.entry.target.verdict).value].name))
    else r
  }

  /** 1 for a rule that jumps into chain `k`. */
  function Hits(cs: seq<ChainHead>, k: nat): RuleHead -> nat {
    (r: RuleHead) => if r.kind.Jump? && ChainAt(cs, r.entry.target.verdict) == Some(k) then 1 else 0
  }

  function HitsIn(cs: seq<ChainHead>, k: nat): ChainHead -> nat {
    (c: ChainHead) => Total(c.rules, Hits(cs, k))
  }

  /** Chain `k` with its jumps resolved and every jump into it counted. */
  function ResolvedChain(cs: seq<ChainHead>, k: nat): ChainHead
    requires k < |cs|
  {
    cs[k].(references := cs[k].references + Total(cs, HitsIn(cs, k)),
           rules := seq(|cs[k].rules|, i requires 0 <= i < |cs[k].rules| => ResolvedRule(cs, cs[k].rules[i])))
  }

  function Resolved(cs: seq<ChainHead>): seq<ChainHead> {
    seq(|cs|, k requires 0 <= k < |cs| => ResolvedChain(cs, k))
  }

  // --------------------------------------------------------------------------------------- parsing

  datatype Parse = Parsed(chains: seq<ChainHead>, numChains: nat, counts: seq<Counters>) | Failed | Crashed

  /** First pass: adds one entry after the other. */
  method ReadEntries(b: Blob) returns (g: Progress)
    ensures g == match ReadFrom(b, START, 0) case Stop(p) => Go(p) case other => other
  {
    var p, off := START, 0;
    while off < b.size
      invariant ReadFrom(b, START, 0) == ReadFrom(b, p, off)
      decreases b.size - off
    {
      if off !in b.entries {
        return Undefined;
      }
      var e := b.entries[off];
      match AddEntry(b, p, e, off) {
        case Go(q) => p := q;
        case Stop(q) => return Go(q);
        case Undefined => return Undefined;
      }
      off := off + EntrySize(e);
    }
    return Go(p);
  }

  /** Where the second pass stands: chains before `c` are resolved, in chain `c` the rules before `n` are,
      and every chain counts the jumps met so far. */
  ghost predicate ResolvedUpTo(cs: seq<ChainHead>, cs': seq<ChainHead>, c: nat, n: nat) {
    && c <= |cs| == |cs'| && (c < |cs| ==> n <= |cs[c].rules|) && (c == |cs| ==> n == 0)
    && forall k {:trigger cs'[k]} :: 0 <= k < |cs| ==>
      && cs'[k] == cs[k].(rules := cs'[k].rules, references := cs'[k].references)
      && |cs'[k].rules| == |cs[k].rules|
      && cs'[k].references == cs[k].references + HitsSoFar(cs, k, c, n)
      && (forall i :: 0 <= i < |cs[k].rules| ==>
           cs'[k].rules[i] == if k < c || (k == c && i < n) then ResolvedRule(cs, cs[k].rules[i]) else cs[k].rules[i])
  }

  ghost function HitsSoFar(cs: seq<ChainHead>, k: nat, c: nat, n: nat): nat
    requires c <= |cs| && (c < |cs| ==> n <= |cs[c].rules|)
  {
    Total(cs[..c], HitsIn(cs, k)) + if c < |cs| then Total(cs[c].rules[..n], Hits(cs, k)) else 0
  }

  lemma {:induction false} NextHit(cs: seq<ChainHead>, k: nat, c: nat, n: nat)
    requires c < |cs| && n < |cs[c].rules|
    ensures HitsSoFar(cs, k, c, n + 1) == HitsSoFar(cs, k, c, n) + Hits(cs, k)(cs[c].rules[n])
  {
    assert cs[c].rules[..n + 1][..n] == cs[c].rules[..n];
  }

  lemma {:induction false} NextChainHits(cs: seq<ChainHead>, k: nat, c: nat)
    requires c < |cs|
    ensures HitsSoFar(cs, k, c + 1, 0) == HitsSoFar(cs, k, c, |cs[c].rules|)
  {
    assert cs[..c + 1][..c] == cs[..c];
    assert cs[c].rules[..|cs[c].rules|] == cs[c].rules;
  }

  /** Chains are looked up by their place in the blob, which the second pass does not change. */
  lemma {:induction false} ChainAtSame(cs: seq<ChainHead>, cs': seq<ChainHead>, off: int)
    requires |cs'| == |cs|
    requires forall k :: 0 <= k < |cs| ==>
      cs'[k].headOffset == cs[k].headOffset && cs'[k].footOffset == cs[k].footOffset
    ensures ChainAt(cs', off) == ChainAt(cs, off)
  {
    if cs != [] {
      ChainAtSame(cs[..|cs| - 1], cs'[..|cs'| - 1], off);
    }
  }

  lemma {:induction false} ResolveStep(cs: seq<ChainHead>, cs': seq<ChainHead>, c: nat, n: nat, cs'': seq<ChainHead>)
    requires ResolvedUpTo(cs, cs', c, n) && c < |cs| && n < |cs[c].rules|
    requires var r := cs[c].rules[n];
      if !r.kind.Jump? then cs'' == cs'
      else
        var at := ChainAt(cs, r.entry.target.verdict);
        at.Some? &&
        var mid := cs'[c := cs'[c].(rules := cs'[c].rules[n := cs'[c].rules[n].(kind := Jump(cs[at.value].name))])];
        cs'' == mid[at.value := mid[at.value].(references := mid[at.value].references + 1)]
    ensures ResolvedUpTo(cs, cs'', c, n + 1)
  {
    forall k | 0 <= k < |cs|
      ensures HitsSoFar(cs, k, c, n + 1) == HitsSoFar(cs, k, c, n) + Hits(cs, k)(cs[c].rules[n])
    {
      NextHit(cs, k, c, n);
    }
  }

  lemma {:induction false} ResolveNextChain(cs: seq<ChainHead>, cs': seq<ChainHead>, c: nat)
    requires c < |cs| && ResolvedUpTo(cs, cs', c, |cs[c].rules|)
    ensures ResolvedUpTo(cs, cs', c + 1, 0)
  {
    forall k | 0 <= k < |cs| ensures HitsSoFar(cs, k, c + 1, 0) == HitsSoFar(cs, k, c, |cs[c].rules|) {
      NextChainHits(cs, k, c);
    }
  }

  lemma {:induction false} ResolveStart(cs: seq<ChainHead>)
    ensures ResolvedUpTo(cs, cs, 0, 0)
  {
    forall k | 0 <= k < |cs| ensures HitsSoFar(cs, k, 0, 0) == 0 {
    }
  }

  lemma {:induction false} ResolveDone(cs: seq<ChainHead>, cs': seq<ChainHead>)
    requires ResolvedUpTo(cs, cs', |cs|, 0)
    ensures cs' == Resolved(cs)
  {
    assert cs[..|cs|] == cs;
    forall k | 0 <= k < |cs| ensures cs'[k] == Resolved(cs)[k] {
      assert cs'[k].rules == ResolvedChain(cs, k).rules;
    }
  }

  /** All jumps of the first `c` chains, and the first `n` rules of chain `c`, lead into some chain. */
  ghost predicate NoneLost(cs: seq<ChainHead>, c: nat, n: nat)
    requires c <= |cs| && (c < |cs| ==> n <= |cs[c].rules|)
  {
    && (forall k, i :: 0 <= k < c && 0 <= i < |cs[k].rules| ==> !Lost(cs, cs[k].rules[i]))
    && (c < |cs| ==> forall i :: 0 <= i < n ==> !Lost(cs, cs[c].rules[i]))
  }

  /** Gives one jump its chain and counts it there. */
  method ResolveRule(cs: seq<ChainHead>, c: nat, n: nat) returns (r: Option<seq<ChainHead>>)
    requires c < |cs| && n < |cs[c].rules|
    ensures var rule := cs[c].rules[n];
      if !rule.kind.Jump? then r == Some(cs)
      else
        var at := ChainAt(cs, rule.entry.target.verdict);
        if at.None? then r == None
        else
          var mid := cs[c := cs[c].(rules := cs[c].rules[n := rule.(kind := Jump(cs[at.value].name))])];
          r == Some(mid[at.value := mid[at.value].(references := mid[at.value].references + 1)])
  {
    var rule := cs[c].rules[n];
    if !rule.kind.Jump? {
      return Some(cs);
    }
    var at := ChainAt(cs, rule.entry.target.verdict);
    if at.None? {
      return None;
    }
    var cs' := cs[c := cs[c].(rules := cs[c].rules[n := rule.(kind := Jump(cs[at.value].name))])];
    return Some(cs'[at.value := cs'[at.value].(references := cs'[at.value].references + 1)]);
  }

  /** Resolves the jumps of chain `c`. */
  method ResolveChain(ghost cs: seq<ChainHead>, before: seq<ChainHead>, c: nat) returns (r: Option<seq<ChainHead>>)
    requires c < |cs| && ResolvedUpTo(cs, before, c, 0) && NoneLost(cs, c, 0)
    ensures r.None? ==> HasLost(cs)
    ensures r.Some? ==> ResolvedUpTo(cs, r.value, c + 1, 0) && NoneLost(cs, c + 1, 0)
  {
    hide ResolvedUpTo, NoneLost, ChainAt, Lost, HasLost;
    var cs', n := before, 0;
    ResolvedShape(cs, cs', c, n);
    while n < |cs'[c].rules|
      invariant c < |cs'| && n <= |cs'[c].rules| == |cs[c].rules|
      invariant ResolvedUpTo(cs, cs', c, n) && NoneLost(cs, c, n)
    {
      ResolvedShape(cs, cs', c, n);
      ChainAtSame(cs, cs', cs[c].rules[n].entry.target.verdict);
      var next := ResolveRule(cs', c, n);
      if next.None? {
        LostIsLost(cs, c, n);
        return None;
      }
      ResolveStep(cs, cs', c, n, next.value);
      NotLostStep(cs, c, n);
      ResolvedShape(cs, next.value, c, n + 1);
      cs' := next.value;
      n := n + 1;
    }
    ResolveNextChain(cs, cs', c);
    NotLostNext(cs, c);
    return Some(cs');
  }

  lemma {:induction false} ResolvedShape(cs: seq<ChainHead>, cs': seq<ChainHead>, c: nat, n: nat)
    requires ResolvedUpTo(cs, cs', c, n) && c < |cs|
    ensures |cs'| == |cs| && |cs'[c].rules| == |cs[c].rules|
    ensures n < |cs[c].rules| ==> cs'[c].rules[n] == cs[c].rules[n]
    ensures forall k :: 0 <= k < |cs| ==>
      cs'[k].headOffset == cs[k].headOffset && cs'[k].footOffset == cs[k].footOffset && cs'[k].name == cs[k].name
  {
  }

  lemma {:induction false} LostIsLost(cs: seq<ChainHead>, c: nat, n: nat)
    requires c < |cs| && n < |cs[c].rules|
    requires cs[c].rules[n].kind.Jump? && ChainAt(cs, cs[c].rules[n].entry.target.verdict).None?
    ensures HasLost(cs)
  {
    assert Lost(cs, cs[c].rules[n]);
  }

  lemma {:induction false} NotLostStep(cs: seq<ChainHead>, c: nat, n: nat)
    requires c < |cs| && n < |cs[c].rules| && NoneLost(cs, c, n)
    requires cs[c].rules[n].kind.Jump? ==> ChainAt(cs, cs[c].rules[n].entry.target.verdict).Some?
    ensures NoneLost(cs, c, n + 1)
  {
  }

  lemma {:induction false} NotLostNext(cs: seq<ChainHead>, c: nat)
    requires c < |cs| && NoneLost(cs, c, |cs[c].rules|)
    ensures NoneLost(cs, c + 1, 0)
  {
  }

  /** Second pass: gives every jump its chain and counts it there. */
  method ResolveJumps(cs: seq<ChainHead>) returns (r: Option<seq<ChainHead>>)
    ensures r == if HasLost(cs) then None else Some(Resolved(cs))
  {
    var cs', c := cs, 0;
    ResolveStart(cs);
    while c < |cs'|
      invariant ResolvedUpTo(cs, cs', c, 0) && NoneLost(cs, c, 0)
    {
      var next := ResolveChain(cs, cs', c);
      if next.None? {
        return None;
      }
      cs' := next.value;
      c := c + 1;
    }
    ResolveDone(cs, cs');
    return Some(cs');
  }

  /** What a blob is read as. */
  ghost function ParseOf(b: Blob): Parse {
    match ReadFrom(b, START, 0)
    case Undefined => Crashed
    case _ =>
      var p := ReadFrom(b, START, 0).state;
      if HasLost(p.chains) then Failed else Parsed(Resolved(p.chains), p.numChains, p.counts)
  }

  method ParseTable(b: Blob) returns (r: Parse)
    ensures r == ParseOf(b)
  {
    var g := ReadEntries(b);
    if g.Undefined? {
      return Crashed;
    }
    var chains := ResolveJumps(g.state.chains);
    return match chains
      case None => Failed
      case Some(cs) => Parsed(cs, g.state.numChains, g.state.counts);
  }
}
