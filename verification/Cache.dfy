/** The in-memory form of a table: chain heads and rule heads with their reference counts, rule counts,
    layout numbers and counter maps, and what makes them agree with the ruleset they stand for. */
module Cache {
  import opened Names
  import opened Seqs
  import opened Rulesets
  import opened Editing

  /** Where the counter of a slot comes from when the table is committed; `pos` is the slot's place in
      the table that was read from the kernel. */
  datatype CounterMap = NoMap | NormalMap(pos: nat) | Zeroed(pos: nat) | SetTo

  /** The rule type; a jump names its target chain, and has the empty name while it is unresolved. */
  datatype Kind = Standard | Module | Fallthrough | Jump(target: Name)

  type Size = n: nat | n > 0 witness 1

  datatype RuleHead = RuleHead(kind: Kind, entry: Entry, size: Size, counterMap: CounterMap, index: nat, offset: nat)

  datatype ChainHead = ChainHead(
    name: Name, hook: nat, references: nat, verdict: int,
    counters: Counters, counterMap: CounterMap,
    numRules: nat, rules: seq<RuleHead>,
    index: nat, headOffset: nat, footIndex: nat, footOffset: nat)

  /** A freshly allocated chain head. */
  function NewChain(name: Name, hook: nat): ChainHead {
    ChainHead(name, hook, 0, 0, ZERO_COUNTERS, NoMap, 0, [], 0, 0, 0, 0)
  }

  // ------------------------------------------------------------------------------------ abstraction

  function AbsAction(r: RuleHead): Action {
    match r.kind
    case Standard => Verdict(r.entry.target.verdict)
    case Module => Extension(r.entry.target.name, r.entry.target.data)
    case Fallthrough => Continue
    case Jump(target) => Call(target)
  }

  function AbsRule(r: RuleHead): Rule {
    Rule(r.entry.ip, r.entry.matches, TargetSize(r.entry.target), AbsAction(r))
  }

  function AbsChain(c: ChainHead): Chain {
    Chain(c.name, c.hook, if c.hook > 0 then c.verdict else RETURN, Map(c.rules, AbsRule))
  }

  function Abs(cs: seq<ChainHead>): Ruleset {
    Map(cs, AbsChain)
  }

  // ------------------------------------------------------------------------------------- invariants

  /** The recorded size is right. */
  predicate SizeOk(r: RuleHead) { r.size == EntrySize(r.entry) }

  ghost predicate SizesOk(cs: seq<ChainHead>) {
    forall k, i {:trigger SizeOk(cs[k].rules[i])} :: 0 <= k < |cs| && 0 <= i < |cs[k].rules| ==> SizeOk(cs[k].rules[i])
  }

  /** The target bytes agree with the rule type. */
  predicate KindOk(r: RuleHead) {
    match r.kind
    case Standard => r.entry.target.name == STANDARD_TARGET && IsStandardSized(r.entry.target)
    case Module => r.entry.target.name != STANDARD_TARGET
    case Fallthrough => r.entry.target.name == STANDARD_TARGET
    case Jump(target) => target != ""
  }

  ghost predicate KindsOk(cs: seq<ChainHead>) {
    forall k, i :: 0 <= k < |cs| && 0 <= i < |cs[k].rules| ==> KindOk(cs[k].rules[i])
  }

  /** Rule counts and reference counts are exact. */
  ghost predicate CachesOk(cs: seq<ChainHead>) {
    && (forall k :: 0 <= k < |cs| ==> cs[k].numRules == |cs[k].rules|)
    && (forall k :: 0 <= k < |cs| ==> cs[k].references == Calls(Abs(cs), cs[k].name))
  }

  function IsUserHead(): ChainHead -> nat {
    (c: ChainHead) => if c.hook == 0 then 1 else 0
  }

  function UserCount(cs: seq<ChainHead>): nat { Total(cs, IsUserHead()) }

  /** The user chains are the last `UserCount` ones. */
  lemma {:induction false} UsersAtEnd(cs: seq<ChainHead>)
    requires forall j, k :: 0 <= j < k < |cs| && cs[j].hook == 0 ==> cs[k].hook == 0
    ensures UserCount(cs) <= |cs|
    ensures forall i :: 0 <= i < |cs| ==> (cs[i].hook == 0 <==> i >= |cs| - UserCount(cs))
  {
    if cs != [] {
      var front := cs[..|cs| - 1];
      UsersAtEnd(front);
      assert UserCount(cs) == UserCount(front) + if cs[|cs| - 1].hook == 0 then 1 else 0;
      assert UserCount(front) > 0 ==> cs[|front| - UserCount(front)].hook == 0;
    }
  }

  /** The chain index: sorted names of user chains, the least one first; or the list head alone. */
  ghost predicate IndexOk(rs: Ruleset, index: seq<Name>) {
    && Sorted(index)
    && (index == [""]
        || ((forall k :: 0 <= k < |index| ==> IsUser(rs, index[k]))
            && (|index| > 0 ==> LeastUser(rs, index[0]))))
  }

  ghost predicate LeastUser(rs: Ruleset, name: Name) {
    forall j :: 0 <= j < |rs| && rs[j].hook == 0 ==> !Less(rs[j].name, name)
  }

  // ------------------------------------------------------------------------------------ counter maps

  function Maps(m: CounterMap, p: nat): nat {
    if (m.NormalMap? || m.Zeroed?) && m.pos == p then 1 else 0
  }

  function RuleMaps(p: nat): RuleHead -> nat {
    (r: RuleHead) => Maps(r.counterMap, p)
  }

  function ChainMaps(p: nat): ChainHead -> nat {
    (c: ChainHead) => (if c.hook > 0 then Maps(c.counterMap, p) else 0) + Total(c.rules, RuleMaps(p))
  }

  /** Number of rules and policies that take over the old counter at `p`. */
  function Takers(cs: seq<ChainHead>, p: nat): nat { Total(cs, ChainMaps(p)) }

  /** A slot that takes over an old counter still holds the value first read for it. */
  predicate SlotOk(m: CounterMap, counters: Counters, original: seq<Counters>) {
    m.NormalMap? || m.Zeroed? ==> m.pos < |original| && counters == original[m.pos]
  }

  ghost predicate ChainSlotsOk(c: ChainHead, original: seq<Counters>) {
    && (c.hook > 0 ==> SlotOk(c.counterMap, c.counters, original))
    && forall i :: 0 <= i < |c.rules| ==> SlotOk(c.rules[i].counterMap, c.rules[i].entry.counters, original)
  }

  /** Every taken-over counter exists and no old counter has two takers. */
  ghost predicate Tracked(cs: seq<ChainHead>, original: seq<Counters>) {
    && (forall k :: 0 <= k < |cs| ==> ChainSlotsOk(cs[k], original))
    && forall p: nat :: Takers(cs, p) <= 1
  }

  lemma {:induction false} TrackedUpdate(cs: seq<ChainHead>, k: nat, c: ChainHead, original: seq<Counters>)
    requires Tracked(cs, original) && k < |cs| && ChainSlotsOk(c, original)
    requires forall p: nat :: ChainMaps(p)(c) <= ChainMaps(p)(cs[k])
    ensures Tracked(cs[k := c], original)
  {
    var cs' := cs[k := c];
    forall p: nat ensures Takers(cs', p) <= 1 {
      assert Takers(cs, p) <= 1;
      TotalUpdate(cs, k, c, ChainMaps(p));
    }
  }

  lemma {:induction false} TrackedInsert(cs: seq<ChainHead>, k: nat, c: ChainHead, original: seq<Counters>)
    requires Tracked(cs, original) && k <= |cs| && c.hook == 0 && c.rules == []
    ensures Tracked(InsertAt(cs, k, c), original)
  {
    var cs' := InsertAt(cs, k, c);
    forall p: nat ensures Takers(cs', p) <= 1 {
      assert Takers(cs, p) <= 1;
      TotalInsert(cs, k, c, ChainMaps(p));
    }
  }

  lemma {:induction false} TrackedRemove(cs: seq<ChainHead>, k: nat, original: seq<Counters>)
    requires Tracked(cs, original) && k < |cs|
    ensures Tracked(RemoveAt(cs, k), original)
  {
    var cs' := RemoveAt(cs, k);
    forall p: nat ensures Takers(cs', p) <= 1 {
      assert Takers(cs, p) <= 1;
      TotalRemove(cs, k, ChainMaps(p));
    }
  }

  // ---------------------------------------------------------------------- caches under rule edits

  /** Caches stay exact when every reference count moves with the calls gained and lost by the rules of
      chain `k`. */
  lemma {:induction false} CachesAfterEdit(cs: seq<ChainHead>, cs': seq<ChainHead>, k: nat, rules: seq<Rule>)
    requires CachesOk(cs) && k < |cs| && Abs(cs') == WithRules(Abs(cs), k, rules)
    requires forall j :: 0 <= j < |cs'| ==> cs'[j].numRules == |cs'[j].rules|
    requires |cs'| == |cs| && forall j :: 0 <= j < |cs| ==>
      cs'[j].references == cs[j].references - Total(Abs(cs)[k].rules, IsCall(cs[j].name))
          + Total(rules, IsCall(cs[j].name))
    ensures CachesOk(cs')
  {
    forall j | 0 <= j < |cs'| ensures cs'[j].references == Calls(Abs(cs'), cs'[j].name) {
      assert Abs(cs')[j] == AbsChain(cs'[j]) && Abs(cs)[j] == AbsChain(cs[j]);
      CallsWithRules(Abs(cs), k, rules, cs[j].name);
    }
  }
}
