/** The proof steps behind the handle's operations: how each change of the cached chains moves the ruleset
    and keeps counts, references and counter maps exact. */
module HandleFacts {
  import opened Names
  import opened Seqs
  import opened Rulesets
  import opened Editing
  import opened Cache
  import opened ChainIndex
  import opened LookupFacts

  /** An operation on a table does what its specification says: the same error and no change, or success
      and the specified table. */
  ghost predicate Does(before: Ruleset, spec: Result<Ruleset>, r: Result<()>, after: Ruleset) {
    match spec
    case Ok(rs) => r == Ok(()) && after == rs
    case Err(errno) => r == Err(errno) && after == before
  }

  /** An error leaves the table as it was. */
  lemma {:induction false} RefusingDoes(rs: Ruleset)
    ensures forall errno :: Does(rs, Err(errno), Err(errno), rs)
  {
  }

  lemma {:induction false} SucceedingDoes(before: Ruleset, after: Ruleset)
    ensures Does(before, Ok(after), Ok(()), after)
  {
  }

  lemma {:induction false} AbsAt(cs: seq<ChainHead>, k: nat)
    requires k < |cs|
    ensures |Abs(cs)| == |cs| && Abs(cs)[k] == AbsChain(cs[k])
    ensures |Abs(cs)[k].rules| == |cs[k].rules|
    ensures forall i {:trigger cs[k].rules[i]} {:trigger Abs(cs)[k].rules[i]} :: 0 <= i < |cs[k].rules| ==>
      Abs(cs)[k].rules[i] == AbsRule(cs[k].rules[i])
  {
    assert Abs(cs)[k] == AbsChain(cs[k]);
  }

  /** The chain heads and their abstraction, place by place. */
  lemma {:induction false} Heads(cs: seq<ChainHead>)
    ensures |Abs(cs)| == |cs|
    ensures forall k {:trigger cs[k]} {:trigger Abs(cs)[k]} :: 0 <= k < |cs| ==>
      && Abs(cs)[k].name == cs[k].name
      && Abs(cs)[k].hook == cs[k].hook
      && |Abs(cs)[k].rules| == |cs[k].rules|
  {
    forall k | 0 <= k < |cs|
      ensures Abs(cs)[k].name == cs[k].name && Abs(cs)[k].hook == cs[k].hook
      ensures |Abs(cs)[k].rules| == |cs[k].rules|
    {
      AbsAt(cs, k);
    }
  }

  lemma {:induction false} UserPositions(cs: seq<ChainHead>)
    requires Ordered(Abs(cs))
    ensures UserCount(cs) <= |cs|
    ensures forall i :: 0 <= i < |cs| ==> (Abs(cs)[i].hook == 0 <==> i >= |cs| - UserCount(cs))
    ensures forall i :: 0 <= i < |cs| ==> (cs[i].hook == 0 <==> i >= |cs| - UserCount(cs))
  {
    Heads(cs);
    UsersAtEnd(cs);
  }

  /** A slot that is not the list head points to a user chain of the list. */
  lemma {:induction false} UserFound(rs: Ruleset, index: seq<Name>, slot: nat)
    requires NamesDiffer(rs) && IndexOk(rs, index) && slot < |index| && index[slot] != ""
    ensures Lookup(rs, index[slot]).Some? && rs[Lookup(rs, index[slot]).value].hook == 0
  {
    var k :| 0 <= k < |rs| && rs[k].name == index[slot] && rs[k].hook == 0;
    LookupAt(rs, k);
  }

  lemma {:induction false} BuiltinFound(rs: Ruleset, name: Name)
    requires NamesDiffer(rs) && exists k :: 0 <= k < |rs| && rs[k].name == name && rs[k].hook > 0
    ensures Lookup(rs, name).Some? && rs[Lookup(rs, name).value].hook > 0
  {
    var k :| 0 <= k < |rs| && rs[k].name == name && rs[k].hook > 0;
    LookupAt(rs, k);
  }

  /** Wherever the insertion starts its walk, no user chain before is beyond the new name. */
  lemma {:induction false} StartIsEarly(rs: Ruleset, index: seq<Name>, name: Name, slot: nat, pos: nat)
    requires NamesDiffer(rs) && Ordered(rs) && IndexOk(rs, index) && name != "" && Lookup(rs, name).None?
    requires |index| > 0 ==> IsSlot(index, name, slot)
    requires |index| == 0 ==> pos == 0
    requires |index| > 0 && index[slot] == "" ==> pos == 0
    requires |index| > 0 && index[slot] != "" ==>
      pos == 0 || (!(slot == 0 && Compare(name, index[0]) <= 0) && Lookup(rs, index[slot]) == Some(pos))
    ensures forall j :: 0 <= j < pos && rs[j].hook == 0 ==> Less(rs[j].name, name)
  {
    if pos > 0 {
      var at :| 0 <= at < |rs| && rs[at].name == index[slot] && rs[at].hook == 0;
      assert at == pos;
      Antisymmetric(name, index[slot]);
      assert Less(index[slot], name);
      forall j | 0 <= j < pos && rs[j].hook == 0 ensures Less(rs[j].name, name) {
        Transitive(rs[j].name, rs[pos].name, name);
      }
    }
  }

  /** The test made on slot 0 is whether the new chain is the least. */
  lemma {:induction false} SlotZero(rs: Ruleset, index: seq<Name>, name: Name, slot: nat)
    requires NamesDiffer(rs) && IndexOk(rs, index) && name != "" && Lookup(rs, name).None?
    requires IsSlot(index, name, slot)
    ensures slot == 0 && Compare(name, index[0]) <= 0 <==> index[0] != "" && Less(name, index[0])
  {
    if Less(name, index[0]) { BelowRest(index, name, 0); }
    Trichotomy(name, "");
    assert index[0] != "" ==> IsUser(rs, index[0]);
  }

  lemma {:induction false} SameChainsSameIndex(rs: Ruleset, rs': Ruleset, index: seq<Name>)
    requires SameChains(rs, rs') && IndexOk(rs, index)
    ensures IndexOk(rs', index)
  {
    if index != [""] {
      forall k | 0 <= k < |index| ensures IsUser(rs', index[k]) {
        SameChainsSameUsers(rs, rs', index[k]);
      }
    }
  }

  lemma {:induction false} SameAbs(cs: seq<ChainHead>, k: nat, c: ChainHead)
    requires k < |cs| && AbsChain(c) == AbsChain(cs[k])
    ensures Abs(cs[k := c]) == Abs(cs)
  {
    MapUpdate(cs, k, c, AbsChain);
  }

  // -------------------------------------------------------------------------- creating, deleting

  lemma {:induction false} SizesMoved(cs: seq<ChainHead>, cs': seq<ChainHead>)
    requires SizesOk(cs) && forall j :: 0 <= j < |cs'| ==> cs'[j].rules == [] || cs'[j] in cs
    ensures SizesOk(cs')
  {
    forall j, i | 0 <= j < |cs'| && 0 <= i < |cs'[j].rules| ensures SizeOk(cs'[j].rules[i]) {
      var k :| 0 <= k < |cs| && cs[k] == cs'[j];
      assert SizeOk(cs[k].rules[i]);
    }
  }

  /** The chains after a new one was put in. */
  function CreatedIn(cs: seq<ChainHead>, name: Name): seq<ChainHead> {
    InsertAt(cs, Place(Abs(cs), name), NewChain(name, 0))
  }

  lemma {:induction false} CreatedIs(cs: seq<ChainHead>, name: Name)
    ensures CreatedIn(cs, name) == InsertAt(cs, Place(Abs(cs), name), NewChain(name, 0))
    ensures NewChain(name, 0).name == name && NewChain(name, 0).hook == 0 && NewChain(name, 0).rules == []
  {
  }

  /** When a chain cannot be created. */
  lemma {:induction false} CreateWhen(rs: Ruleset, name: Name)
    ensures Lookup(rs, name).Some? || name in ["DROP", "ACCEPT", "QUEUE", "RETURN"] ==> Create(rs, name) == Err(EEXIST)
    ensures Lookup(rs, name).None? && name !in ["DROP", "ACCEPT", "QUEUE", "RETURN"] ==>
      if |name| > MAX_NAME then Create(rs, name) == Err(EINVAL) else Create(rs, name).Ok?
  {
    hide Lookup, Place, InsertAt;
  }

  lemma {:induction false} CreateKeeps(cs: seq<ChainHead>, name: Name, original: seq<Counters>)
    requires ChainsOk(cs, original) && name != "" && Create(Abs(cs), name).Ok?
    ensures ChainsOk(CreatedIn(cs, name), original)
    ensures Abs(CreatedIn(cs, name)) == Create(Abs(cs), name).value
    ensures UserCount(CreatedIn(cs, name)) == UserCount(cs) + 1
  {
    var p, c := Place(Abs(cs), name), NewChain(name, 0);
    TotalInsert(cs, p, c, IsUserHead());
    MapInsert(cs, p, c, AbsChain);
    assert AbsChain(c) == Chain(name, 0, RETURN, []);
    CreateKeepsWellFormed(Abs(cs), name);
    TrackedInsert(cs, p, c, original);
    CreateKeepsCaches(cs, p, c);
    SizesMoved(cs, InsertAt(cs, p, c));
  }

  lemma {:induction false} CreateKeepsKinds(cs: seq<ChainHead>, p: nat, c: ChainHead)
    requires p <= |cs| && c.hook == 0 && c.rules == [] && KindsOk(cs)
    ensures KindsOk(InsertAt(cs, p, c))
  {
    var cs' := InsertAt(cs, p, c);
    assert forall k :: 0 <= k < |cs'| ==> cs'[k] == if k < p then cs[k] else if k == p then c else cs[k - 1];
  }

  /** An empty chain more changes the number of calls of no chain. */
  lemma {:induction false} EmptyChainCallsNone(rs: Ruleset, p: nat, c: Chain, name: Name)
    requires p <= |rs| && c.rules == []
    ensures Calls(InsertAt(rs, p, c), name) == Calls(rs, name)
  {
    TotalInsert(rs, p, c, CallsIn(name));
  }

  lemma {:induction false} NoRulesIn(c: ChainHead)
    requires c.rules == []
    ensures AbsChain(c).rules == []
  {
  }

  lemma {:induction false} CreateKeepsCaches(cs: seq<ChainHead>, p: nat, c: ChainHead)
    requires p <= |cs| && c.hook == 0 && c.rules == [] && c.numRules == 0 && c.references == 0
    requires KindsOk(cs) && CachesOk(cs) && RulesOk(Abs(cs)) && Lookup(Abs(cs), c.name).None?
    ensures KindsOk(InsertAt(cs, p, c)) && CachesOk(InsertAt(cs, p, c))
  {
    CreateKeepsKinds(cs, p, c);
    NobodyCalls(Abs(cs), c.name);
    MapInsert(cs, p, c, AbsChain);
    hide KindsOk, Calls, RulesOk, Lookup, AbsChain;
    var cs' := InsertAt(cs, p, c);
    forall k | 0 <= k < |cs'|
      ensures cs'[k].references == Calls(Abs(cs'), cs'[k].name) && cs'[k].numRules == |cs'[k].rules|
    {
      assert cs'[k] == if k < p then cs[k] else if k == p then c else cs[k - 1];
      NoRulesIn(c);
      EmptyChainCallsNone(Abs(cs), p, AbsChain(c), cs'[k].name);
    }
  }

  /** A chain that does not exist is not called. */
  lemma {:induction false} NobodyCalls(rs: Ruleset, name: Name)
    requires RulesOk(rs) && Lookup(rs, name).None?
    ensures Calls(rs, name) == 0
  {
    forall k | 0 <= k < |rs| ensures CallsIn(name)(rs[k]) == 0 {
      forall i | 0 <= i < |rs[k].rules| ensures IsCall(name)(rs[k].rules[i]) == 0 {
        assert RuleOk(rs, rs[k].rules[i]);
      }
      TotalZero(rs[k].rules, IsCall(name));
    }
    TotalZero(rs, CallsIn(name));
  }

  lemma {:induction false} DeleteKeeps(cs: seq<ChainHead>, d: nat, original: seq<Counters>)
    requires ChainsOk(cs, original) && d < |cs| && Delete(Abs(cs), cs[d].name).Ok?
    ensures ChainsOk(RemoveAt(cs, d), original)
    ensures Abs(RemoveAt(cs, d)) == Delete(Abs(cs), cs[d].name).value
    ensures UserCount(RemoveAt(cs, d)) == UserCount(cs) - 1
  {
    var rs := Abs(cs);
    AbsAt(cs, d);
    LookupAt(rs, d);
    assert cs[d].rules == [];
    TotalRemove(cs, d, IsUserHead());
    MapRemove(cs, d, AbsChain);
    DeleteKeepsWellFormed(rs, cs[d].name);
    TrackedRemove(cs, d, original);
    DeleteKeepsCaches(cs, d);
    SizesMoved(cs, RemoveAt(cs, d));
  }

  lemma {:induction false} DeleteKeepsCaches(cs: seq<ChainHead>, d: nat)
    requires d < |cs| && cs[d].rules == []
    requires KindsOk(cs) && CachesOk(cs)
    ensures KindsOk(RemoveAt(cs, d)) && CachesOk(RemoveAt(cs, d))
  {
    var cs' := RemoveAt(cs, d);
    MapRemove(cs, d, AbsChain);
    AbsAt(cs, d);
    assert forall k :: 0 <= k < d ==> cs'[k] == cs[k];
    assert forall k :: d <= k < |cs'| ==> cs'[k] == cs[k + 1];
    forall k | 0 <= k < |cs'| ensures cs'[k].references == Calls(Abs(cs'), cs'[k].name) {
      TotalRemove(Abs(cs), d, CallsIn(cs'[k].name));
      assert CallsIn(cs'[k].name)(Abs(cs)[d]) == 0;
    }
  }

  // ------------------------------------------------------------------------------------ references

  /** Only the reference count of `target` differs, by `delta`. */
  ghost predicate References(cs: seq<ChainHead>, cs': seq<ChainHead>, target: Name, delta: int) {
    |cs'| == |cs| && forall k :: 0 <= k < |cs| ==>
      var count := cs[k].references + if cs[k].name == target then delta else 0;
      count >= 0 && cs'[k] == cs[k].(references := count)
  }

  /** The chains are as before except that a jump counts as a reference already. */
  ghost predicate Linked(cs: seq<ChainHead>, cs': seq<ChainHead>, r: RuleHead) {
    if r.kind.Jump? then References(cs, cs', r.kind.target, 1) else cs' == cs
  }

  lemma {:induction false} LinkedKeepsRules(cs: seq<ChainHead>, cs': seq<ChainHead>, r: RuleHead, k: nat)
    requires k < |cs|
    requires if r.kind.Jump? then References(cs, cs', r.kind.target, 1) else cs' == cs
    ensures Linked(cs, cs', r) && |cs'| == |cs| && cs'[k].rules == cs[k].rules
  {
  }

  lemma {:induction false} ReferencesCancel(cs: seq<ChainHead>, cs': seq<ChainHead>)
    requires |cs| == |cs'| && forall k :: 0 <= k < |cs| ==> cs'[k] == cs[k]
    ensures cs' == cs
  {
  }

  /** Walks the list from `start` on to the place of a new user chain. */
  method WalkToPlace(cs: seq<ChainHead>, start: nat, name: Name) returns (pos: nat)
    requires start <= |cs|
    requires forall j :: 0 <= j < start && cs[j].hook == 0 ==> Less(cs[j].name, name)
    ensures pos == Place(Abs(cs), name)
  {
    Heads(cs);
    pos := start;
    while pos < |cs|
      invariant pos <= |cs|
      invariant forall j :: 0 <= j < pos && cs[j].hook == 0 ==> Less(cs[j].name, name)
    {
      Antisymmetric(cs[pos].name, name);
      if cs[pos].hook == 0 && Compare(name, cs[pos].name) <= 0 {
        PlaceIsUnique(Abs(cs), name, pos);
        return;
      }
      pos := pos + 1;
    }
    PlaceIsUnique(Abs(cs), name, |cs|);
  }

  function StandardMap(r: RuleHead, verdict: int): Result<RuleHead> {
    if IsStandardSized(r.entry.target) then
      Ok(r.(kind := Standard,
            entry := r.entry.(target := r.entry.target.(name := STANDARD_TARGET, verdict := verdict))))
    else Err(EINVAL)
  }

  /** The verdict that a reserved target name stands for. */
  function LabelVerdict(name: Name): Option<int> {
    if name == "ACCEPT" then Some(ACCEPT)
    else if name == "DROP" then Some(DROP)
    else if name == "QUEUE" then Some(QUEUE)
    else if name == "RETURN" then Some(RETURN)
    else None
  }

  /** What the target of a new rule makes of its head. */
  function Mapped(rs: Ruleset, r: RuleHead): Result<RuleHead> {
    var name := r.entry.target.name;
    if name == "" then Ok(r)
    else if LabelVerdict(name).Some? then StandardMap(r, LabelVerdict(name).value)
    else
      match Lookup(rs, name)
      case None => Ok(r.(kind := Module))
      case Some(k) => if rs[k].hook > 0 then Err(EINVAL) else Ok(r.(kind := Jump(name)))
  }

  /** The head stands for what the entry means in the table, and carries the entry's sizes and counters. */
  ghost predicate RightHead(rs: Ruleset, e: Entry, counterMap: CounterMap, r: Result<RuleHead>) {
    match r
    case Err(errno) => RuleFor(rs, e) == Err(errno)
    case Ok(h) =>
      && RuleFor(rs, e) == Ok(AbsRule(h)) && KindOk(h) && SizeOk(h)
      && h.counterMap == counterMap && h.entry.counters == e.counters
      && h.entry.matches == e.matches && TargetSize(h.entry.target) == TargetSize(e.target)
      && (h.kind.Jump? ==> h.kind.target == e.target.name)
  }

  /** What a name that is not reserved is mapped to. */
  lemma {:induction false} NamedMapped(rs: Ruleset, r: RuleHead)
    requires r.entry.target.name != "" && LabelVerdict(r.entry.target.name).None?
    ensures match Lookup(rs, r.entry.target.name)
      case None => Mapped(rs, r) == Ok(r.(kind := Module))
      case Some(k) =>
        Mapped(rs, r) == if rs[k].hook > 0 then Err(EINVAL) else Ok(r.(kind := Jump(r.entry.target.name)))
  {
    hide Lookup, LabelVerdict;
  }

  lemma {:induction false} OneMoreReference(cs: seq<ChainHead>, k: nat, name: Name)
    requires NamesDiffer(Abs(cs)) && k < |cs| && Lookup(Abs(cs), name) == Some(k)
    ensures References(cs, cs[k := cs[k].(references := cs[k].references + 1)], name, 1)
  {
    Heads(cs);
    hide Abs, Lookup;
  }

  /** The chain that a resolved jump leads to is there, and has the reference that the jump has taken. */
  lemma {:induction false} JumpIsReferenced(cs: seq<ChainHead>, cs': seq<ChainHead>, e: Entry, counterMap: CounterMap,
                                            h: RuleHead)
    requires RightHead(Abs(cs), e, counterMap, Ok(h)) && h.kind.Jump? && References(cs, cs', h.kind.target, 1)
    ensures exists k :: 0 <= k < |cs'| && cs'[k].name == h.kind.target && cs'[k].references > 0
  {
    assert RuleFor(Abs(cs), e) == Ok(AbsRule(h)) && AbsRule(h).action == Call(h.kind.target);
    assert Lookup(Abs(cs), h.kind.target).Some? by { hide Lookup; }
    var k := Lookup(Abs(cs), h.kind.target).value;
    hide RightHead, RuleFor, Lookup;
    AbsAt(cs, k);
    assert cs'[k].name == h.kind.target && cs'[k].references > 0;
  }

  /** The chain is there, and the pattern stands for an extension. */
  predicate TouchedBy(rs: Ruleset, chain: Name, e: Entry) {
    Lookup(rs, chain).Some? && RuleFor(rs, e).Ok? && RuleFor(rs, e).value.action.Extension?
  }

  lemma {:induction false} ModuleIsExtension(h: RuleHead)
    ensures AbsRule(h).action.Extension? <==> h.kind.Module?
  {
  }

  /** What a right head is good for. */
  lemma {:induction false} HeadFits(rs: Ruleset, e: Entry, r: Result<RuleHead>)
    requires RightHead(rs, e, SetTo, r) && NamesDiffer(rs)
    ensures r.Err? ==> RuleFor(rs, e) == Err(r.errno)
    ensures r.Ok? ==>
      && RuleFor(rs, e) == Ok(AbsRule(r.value)) && KindOk(r.value) && SizeOk(r.value) && RuleOk(rs, AbsRule(r.value))
      && r.value.counterMap.SetTo? && r.value.entry.counters == e.counters
  {
    if r.Ok? { RuleForOk(rs, e); }
    hide RuleFor, AbsRule, KindOk, SizeOk, RuleOk, NamesDiffer;
  }

  /** Resolving a target gives the right head, or the right error. */
  lemma {:induction false} MappedIsRight(rs: Ruleset, e: Entry, counterMap: CounterMap)
    ensures RightHead(rs, e, counterMap, Mapped(rs, RuleHead(Fallthrough, e, EntrySize(e), counterMap, 0, 0)))
  {
    hide Lookup;
  }

  lemma {:induction false} StandardIsNoJump(r: RuleHead, verdict: int)
    ensures StandardMap(r, verdict).Ok? ==> !StandardMap(r, verdict).value.kind.Jump?
  {
  }

  /** A jump in the list keeps its target's count above zero. */
  lemma {:induction false} JumpHasReference(cs: seq<ChainHead>, k: nat, n: nat)
    requires CachesOk(cs) && RulesOk(Abs(cs)) && k < |cs| && n < |cs[k].rules| && cs[k].rules[n].kind.Jump?
    ensures exists j :: 0 <= j < |cs| && cs[j].name == cs[k].rules[n].kind.target && cs[j].references > 0
  {
    var rs, target := Abs(cs), cs[k].rules[n].kind.target;
    AbsAt(cs, k);
    assert RuleOk(rs, rs[k].rules[n]);
    var j :| 0 <= j < |rs| && rs[j].name == target && rs[j].hook == 0;
    AbsAt(cs, j);
    assert cs[j].name == target;
    if Calls(rs, target) == 0 {
      NoCallsMeansNone(rs, target, k, n);
    }
  }

  /** The chains with rule `r` put in at place `n` of chain `k`. */
  function LinkedAt(cs: seq<ChainHead>, k: nat, n: nat, r: RuleHead): seq<ChainHead>
    requires k < |cs| && n <= |cs[k].rules|
  {
    cs[k := cs[k].(rules := InsertAt(cs[k].rules, n, r), numRules := cs[k].numRules + 1)]
  }

  /** The chains without rule `n` of chain `k`. */
  function UnlinkedAt(cs: seq<ChainHead>, k: nat, n: nat): seq<ChainHead>
    requires k < |cs| && n < |cs[k].rules| && cs[k].numRules > 0
  {
    cs[k := cs[k].(rules := RemoveAt(cs[k].rules, n), numRules := cs[k].numRules - 1)]
  }

  /** All that holds of the chains in a valid handle, apart from the index. */
  ghost predicate ChainsOk(cs: seq<ChainHead>, original: seq<Counters>) {
    WellFormed(Abs(cs)) && KindsOk(cs) && SizesOk(cs) && CachesOk(cs) && Tracked(cs, original)
  }

  lemma {:induction false} SortedChains(cs: seq<ChainHead>, original: seq<Counters>)
    requires ChainsOk(cs, original)
    ensures NamesDiffer(Abs(cs)) && Ordered(Abs(cs))
  {
    hide NamesDiffer, Ordered, KindsOk, SizesOk, CachesOk, Tracked;
  }

  lemma {:induction false} SizesLinked(cs: seq<ChainHead>, k: nat, n: nat, r: RuleHead)
    requires SizesOk(cs) && SizeOk(r) && k < |cs| && n <= |cs[k].rules|
    ensures SizesOk(LinkedAt(cs, k, n, r))
  {
    var cs' := LinkedAt(cs, k, n, r);
    forall j, i | 0 <= j < |cs'| && 0 <= i < |cs'[j].rules| ensures SizeOk(cs'[j].rules[i]) {
      if j != k || i < n {
        assert cs'[j].rules[i] == cs[j].rules[i] && SizeOk(cs[j].rules[i]);
      } else if i > n {
        assert cs'[j].rules[i] == cs[j].rules[i - 1] && SizeOk(cs[j].rules[i - 1]);
      }
    }
  }

  lemma {:induction false} SizesUnlinked(cs: seq<ChainHead>, k: nat, n: nat)
    requires SizesOk(cs) && k < |cs| && n < |cs[k].rules| && cs[k].numRules > 0
    ensures SizesOk(UnlinkedAt(cs, k, n))
  {
    var cs' := UnlinkedAt(cs, k, n);
    forall j, i | 0 <= j < |cs'| && 0 <= i < |cs'[j].rules| ensures SizeOk(cs'[j].rules[i]) {
      var i' := if j == k && i >= n then i + 1 else i;
      assert cs'[j].rules[i] == cs[j].rules[i'] && SizeOk(cs[j].rules[i']);
    }
  }

  /** Chains with the same rules, up to order and to what does not count for the size. */
  lemma {:induction false} SizesSame(cs: seq<ChainHead>, cs': seq<ChainHead>)
    requires SizesOk(cs)
    requires forall j :: 0 <= j < |cs'| ==>
      |cs'[j].rules| == 0 || exists k :: 0 <= k < |cs| && SameSizedRules(cs[k], cs'[j])
    ensures SizesOk(cs')
  {
    forall j, i | 0 <= j < |cs'| && 0 <= i < |cs'[j].rules| ensures SizeOk(cs'[j].rules[i]) {
      var k :| 0 <= k < |cs| && SameSizedRules(cs[k], cs'[j]);
      assert SizeOk(cs[k].rules[i]);
      var e, e' := cs[k].rules[i].entry, cs'[j].rules[i].entry;
      assert EntrySize(e') == EntrySize(e);
    }
  }

  ghost predicate SameSizedRules(c: ChainHead, c': ChainHead) {
    |c'.rules| == |c.rules| && forall i :: 0 <= i < |c.rules| ==>
      && c'.rules[i].size == c.rules[i].size && c'.rules[i].entry.matches == c.rules[i].entry.matches
      && |c'.rules[i].entry.target.data| == |c.rules[i].entry.target.data|
  }

  lemma {:induction false} AbsLinked(cs: seq<ChainHead>, k: nat, n: nat, r: RuleHead)
    requires k < |cs| && n <= |cs[k].rules|
    ensures n <= |Abs(cs)[k].rules|
    ensures Abs(LinkedAt(cs, k, n, r)) == WithRules(Abs(cs), k, InsertAt(Abs(cs)[k].rules, n, AbsRule(r)))
  {
    var c := LinkedAt(cs, k, n, r)[k];
    AbsAt(cs, k);
    MapInsert(cs[k].rules, n, r, AbsRule);
    MapUpdate(cs, k, c, AbsChain);
  }

  lemma {:induction false} AbsUnlinked(cs: seq<ChainHead>, k: nat, n: nat)
    requires k < |cs| && n < |cs[k].rules| && cs[k].numRules > 0
    ensures n < |Abs(cs)[k].rules|
    ensures Abs(UnlinkedAt(cs, k, n)) == WithRules(Abs(cs), k, RemoveAt(Abs(cs)[k].rules, n))
  {
    var c := UnlinkedAt(cs, k, n)[k];
    AbsAt(cs, k);
    MapRemove(cs[k].rules, n, AbsRule);
    MapUpdate(cs, k, c, AbsChain);
  }

  lemma {:induction false} SizesOfRefs(cs: seq<ChainHead>, cs': seq<ChainHead>)
    requires SizesOk(cs) && |cs'| == |cs| && forall k :: 0 <= k < |cs| ==> cs'[k].rules == cs[k].rules
    ensures SizesOk(cs')
  {
    forall k | 0 <= k < |cs'| ensures SameSizedRules(cs[k], cs'[k]) {
    }
    SizesSame(cs, cs');
  }

  lemma {:induction false} InsertedRuleOk(rs: Ruleset, k: nat, n: nat, r: Rule)
    requires WellFormed(rs) && k < |rs| && n <= |rs[k].rules| && RuleOk(rs, r)
    ensures WellFormed(WithRules(rs, k, InsertAt(rs[k].rules, n, r)))
  {
    var rules' := InsertAt(rs[k].rules, n, r);
    forall i | 0 <= i < |rules'| ensures RuleOk(rs, rules'[i]) {
      assert rules'[i] == if i < n then rs[k].rules[i] else if i == n then r else rs[k].rules[i - 1];
    }
    hide WellFormed, RuleOk;
    WithRulesOk(rs, k, rules');
  }

  lemma {:induction false} RemovedRuleOk(rs: Ruleset, k: nat, n: nat)
    requires WellFormed(rs) && k < |rs| && n < |rs[k].rules|
    ensures WellFormed(WithRules(rs, k, RemoveAt(rs[k].rules, n)))
  {
    var rules' := RemoveAt(rs[k].rules, n);
    forall i | 0 <= i < |rules'| ensures RuleOk(rs, rules'[i]) {
      assert rules'[i] == rs[k].rules[if i < n then i else i + 1];
    }
    hide WellFormed, RuleOk;
    WithRulesOk(rs, k, rules');
  }

  /** Linking a resolved rule. */
  lemma {:induction false} LinkKeeps(before: seq<ChainHead>, cs: seq<ChainHead>, k: nat, n: nat, r: RuleHead,
                                     original: seq<Counters>)
    requires ChainsOk(before, original) && Linked(before, cs, r) && Abs(cs) == Abs(before)
    requires k < |cs| && n <= |cs[k].rules| && KindOk(r) && SizeOk(r) && r.counterMap.SetTo?
    requires RuleOk(Abs(before), AbsRule(r))
    ensures ChainsOk(LinkedAt(cs, k, n, r), original)
    ensures UserCount(LinkedAt(cs, k, n, r)) == UserCount(before)
  {
    hide WellFormed, SizesOk, CachesOk, Tracked, RuleOk, SizeOk;
    var cs' := LinkedAt(cs, k, n, r);
    AbsLinked(cs, k, n, r);
    InsertedRuleOk(Abs(before), k, n, AbsRule(r));
    SizesOfRefs(before, cs);
    SizesLinked(cs, k, n, r);
    LinkKeepsCaches(before, cs, k, n, r);
    LinkKeepsTracked(before, cs', k, n, r, original);
    TotalSame(before, cs', IsUserHead(), IsUserHead());
  }

  /** A whole table is in order: chains, their number, and the index. */
  ghost predicate TableOk(cs: seq<ChainHead>, numChains: nat, index: seq<Name>, original: seq<Counters>) {
    ChainsOk(cs, original) && numChains == UserCount(cs) && IndexOk(Abs(cs), index)
  }

  lemma {:induction false} TableIs(cs: seq<ChainHead>, numChains: nat, index: seq<Name>, original: seq<Counters>)
    ensures TableOk(cs, numChains, index, original) <==>
      ChainsOk(cs, original) && numChains == UserCount(cs) && IndexOk(Abs(cs), index)
  {
    hide ChainsOk, IndexOk;
  }

  lemma {:induction false} LinkStep(before: seq<ChainHead>, cs: seq<ChainHead>, k: nat, n: nat, r: RuleHead,
                                    numChains: nat, index: seq<Name>, original: seq<Counters>)
    requires TableOk(before, numChains, index, original) && Linked(before, cs, r) && Abs(cs) == Abs(before)
    requires k < |cs| && n <= |cs[k].rules| && KindOk(r) && SizeOk(r) && r.counterMap.SetTo?
    requires RuleOk(Abs(before), AbsRule(r))
    ensures TableOk(LinkedAt(cs, k, n, r), numChains, index, original)
    ensures n <= |Abs(before)[k].rules|
    ensures Abs(LinkedAt(cs, k, n, r)) == WithRules(Abs(before), k, InsertAt(Abs(before)[k].rules, n, AbsRule(r)))
  {
    LinkKeeps(before, cs, k, n, r, original);
    AbsLinked(cs, k, n, r);
    SameChainsSameIndex(Abs(before), Abs(LinkedAt(cs, k, n, r)), index);
  }

  lemma {:induction false} UnlinkStep(before: seq<ChainHead>, cs: seq<ChainHead>, k: nat, n: nat,
                                      numChains: nat, index: seq<Name>, original: seq<Counters>)
    requires TableOk(before, numChains, index, original) && k < |before| && n < |before[k].rules|
    requires Unlinked(before, cs, before[k].rules[n]) && Abs(cs) == Abs(before)
    ensures |cs| == |before| && cs[k].rules == before[k].rules && cs[k].numRules > 0
    ensures TableOk(UnlinkedAt(cs, k, n), numChains, index, original)
    ensures n < |Abs(before)[k].rules|
    ensures Abs(UnlinkedAt(cs, k, n)) == WithRules(Abs(before), k, RemoveAt(Abs(before)[k].rules, n))
  {
    assert cs[k].rules == before[k].rules && cs[k].numRules == before[k].numRules;
    UnlinkKeeps(before, cs, k, n, original);
    AbsUnlinked(cs, k, n);
    SameChainsSameIndex(Abs(before), Abs(UnlinkedAt(cs, k, n)), index);
  }

  lemma {:induction false} LinkKeepsCaches(before: seq<ChainHead>, cs: seq<ChainHead>, k: nat, n: nat, r: RuleHead)
    requires CachesOk(before) && Linked(before, cs, r) && Abs(cs) == Abs(before)
    requires k < |cs| && n <= |cs[k].rules|
    ensures CachesOk(LinkedAt(cs, k, n, r))
  {
    var cs' := LinkedAt(cs, k, n, r);
    AbsLinked(cs, k, n, r);
    var rules' := InsertAt(Abs(before)[k].rules, n, AbsRule(r));
    forall j | 0 <= j < |cs|
      ensures cs'[j].references == before[j].references
              - Total(Abs(before)[k].rules, IsCall(before[j].name)) + Total(rules', IsCall(before[j].name))
    {
      TotalInsert(Abs(before)[k].rules, n, AbsRule(r), IsCall(before[j].name));
    }
    CachesAfterEdit(before, cs', k, rules');
  }

  lemma {:induction false} LinkKeepsTracked(before: seq<ChainHead>, cs': seq<ChainHead>, k: nat, n: nat, r: RuleHead,
                                            original: seq<Counters>)
    requires Tracked(before, original) && |cs'| == |before| && k < |before| && n <= |before[k].rules|
    requires r.counterMap.SetTo?
    requires forall j :: 0 <= j < |before| && j != k ==> cs'[j] == before[j].(references := cs'[j].references)
    requires cs'[k] == before[k].(references := cs'[k].references, numRules := cs'[k].numRules,
                                  rules := InsertAt(before[k].rules, n, r))
    ensures Tracked(cs', original)
  {
    forall p: nat ensures Takers(cs', p) <= 1 {
      assert Takers(before, p) <= 1;
      TotalInsert(before[k].rules, n, r, RuleMaps(p));
      TotalSame(before, cs', ChainMaps(p), ChainMaps(p));
    }
    forall j | 0 <= j < |cs'| ensures ChainSlotsOk(cs'[j], original) {
      assert ChainSlotsOk(before[j], original);
    }
  }

  /** The chains are as before except that a jump about to go no longer counts as a reference. */
  ghost predicate Unlinked(cs: seq<ChainHead>, cs': seq<ChainHead>, r: RuleHead) {
    if r.kind.Jump? then References(cs, cs', r.kind.target, -1) else cs' == cs
  }

  /** Unlinking rule `n` of chain `k`. */
  lemma {:induction false} UnlinkKeeps(before: seq<ChainHead>, cs: seq<ChainHead>, k: nat, n: nat,
                                       original: seq<Counters>)
    requires ChainsOk(before, original) && k < |before| && n < |before[k].rules|
    requires Unlinked(before, cs, before[k].rules[n]) && Abs(cs) == Abs(before)
    requires |cs| == |before| && cs[k].rules == before[k].rules && cs[k].numRules > 0
    ensures ChainsOk(UnlinkedAt(cs, k, n), original)
    ensures UserCount(UnlinkedAt(cs, k, n)) == UserCount(before)
  {
    hide WellFormed, SizesOk, CachesOk, Tracked, RuleOk;
    var cs' := UnlinkedAt(cs, k, n);
    AbsUnlinked(cs, k, n);
    RemovedRuleOk(Abs(before), k, n);
    SizesOfRefs(before, cs);
    SizesUnlinked(cs, k, n);
    UnlinkKeepsCaches(before, cs, k, n);
    UnlinkKeepsTracked(before, cs', k, n, original);
    TotalSame(before, cs', IsUserHead(), IsUserHead());
  }

  lemma {:induction false} UnlinkKeepsCaches(before: seq<ChainHead>, cs: seq<ChainHead>, k: nat, n: nat)
    requires CachesOk(before) && k < |before| && n < |before[k].rules|
    requires Unlinked(before, cs, before[k].rules[n]) && Abs(cs) == Abs(before)
    requires |cs| == |before| && cs[k].rules == before[k].rules && cs[k].numRules > 0
    ensures CachesOk(UnlinkedAt(cs, k, n))
  {
    var cs' := UnlinkedAt(cs, k, n);
    AbsUnlinked(cs, k, n);
    AbsAt(before, k);
    var rules' := RemoveAt(Abs(before)[k].rules, n);
    forall j | 0 <= j < |cs|
      ensures cs'[j].references == before[j].references
              - Total(Abs(before)[k].rules, IsCall(before[j].name)) + Total(rules', IsCall(before[j].name))
    {
      TotalRemove(Abs(before)[k].rules, n, IsCall(before[j].name));
    }
    CachesAfterEdit(before, cs', k, rules');
  }

  lemma {:induction false} UnlinkKeepsTracked(before: seq<ChainHead>, cs': seq<ChainHead>, k: nat, n: nat,
                                              original: seq<Counters>)
    requires Tracked(before, original) && |cs'| == |before| && k < |before| && n < |before[k].rules|
    requires forall j :: 0 <= j < |before| && j != k ==> cs'[j] == before[j].(references := cs'[j].references)
    requires cs'[k] == before[k].(references := cs'[k].references, numRules := cs'[k].numRules,
                                  rules := RemoveAt(before[k].rules, n))
    ensures Tracked(cs', original)
  {
    var c := before[k].(rules := RemoveAt(before[k].rules, n));
    forall p: nat ensures ChainMaps(p)(c) <= ChainMaps(p)(before[k]) {
      TotalRemove(before[k].rules, n, RuleMaps(p));
    }
    assert ChainSlotsOk(before[k], original);
    TrackedUpdate(before, k, c, original);
    var mid := before[k := c];
    forall p: nat ensures Takers(cs', p) <= 1 {
      assert Takers(mid, p) <= 1;
      TotalSame(mid, cs', ChainMaps(p), ChainMaps(p));
    }
    forall j | 0 <= j < |cs'| ensures ChainSlotsOk(cs'[j], original) {
      assert ChainSlotsOk(mid[j], original);
    }
  }

  lemma {:induction false} SplicedBack(rs: Ruleset, rs1: Ruleset, k: nat, n: nat, r: Rule)
    requires k < |rs| && n < |rs[k].rules| && rs1 == WithRules(rs, k, InsertAt(rs[k].rules, n + 1, r))
    ensures k < |rs1| && n < |rs1[k].rules|
    ensures WithRules(rs1, k, RemoveAt(rs1[k].rules, n)) == WithRules(rs, k, rs[k].rules[n := r])
  {
    SpliceReplaces(rs, k, n, r);
    hide RemoveAt;
  }

  /** Linking behind the old rule and unlinking that one puts the new rule in its place. */
  lemma {:induction false} SpliceReplaces(rs: Ruleset, k: nat, n: nat, r: Rule)
    requires k < |rs| && n < |rs[k].rules|
    ensures WithRules(WithRules(rs, k, InsertAt(rs[k].rules, n + 1, r)), k,
                      RemoveAt(InsertAt(rs[k].rules, n + 1, r), n))
         == WithRules(rs, k, rs[k].rules[n := r])
  {
    assert RemoveAt(InsertAt(rs[k].rules, n + 1, r), n) == rs[k].rules[n := r];
  }

  lemma {:induction false} FirstSameIs(rules: seq<Rule>, r: Rule, mask: Bytes, i: nat)
    requires i < |rules| && Same(r, rules[i], mask)
    requires forall j :: 0 <= j < i ==> !Same(r, rules[j], mask)
    ensures FirstSame(rules, r, mask, 0) == Some(i)
  {
  }

  // -------------------------------------------------------------------------------------- counters

  function ZeroMap(m: CounterMap): CounterMap {
    if m.NormalMap? then Zeroed(m.pos) else m
  }

  function ZeroedRule(c: ChainHead, i: nat): ChainHead
    requires i < |c.rules|
  {
    c.(rules := c.rules[i := c.rules[i].(counterMap := ZeroMap(c.rules[i].counterMap))])
  }

  function ZeroedPolicy(c: ChainHead): ChainHead {
    c.(counterMap := ZeroMap(c.counterMap))
  }

  /** The policy and the first `n` rules zeroed. */
  function ZeroedUpTo(c: ChainHead, n: nat): ChainHead
    requires n <= |c.rules|
  {
    ZeroedPolicy(c).(rules := seq(|c.rules|, i requires 0 <= i < |c.rules| =>
      if i < n then c.rules[i].(counterMap := ZeroMap(c.rules[i].counterMap)) else c.rules[i]))
  }

  function ZeroedChain(c: ChainHead): ChainHead { ZeroedUpTo(c, |c.rules|) }

  lemma {:induction false} ZeroedUpToSteps(c: ChainHead, n: nat)
    requires n <= |c.rules|
    ensures n == 0 ==> ZeroedUpTo(c, n) == ZeroedPolicy(c)
    ensures n < |c.rules| ==> ZeroedRule(ZeroedUpTo(c, n), n) == ZeroedUpTo(c, n + 1)
  {
  }

  function CountedRule(c: ChainHead, i: nat, counters: Counters): ChainHead
    requires i < |c.rules|
  {
    c.(rules := c.rules[i := c.rules[i].(counterMap := SetTo, entry := c.rules[i].entry.(counters := counters))])
  }

  /** The chains differ only in counters and where these come from. */
  ghost predicate SameButCounters(c: ChainHead, c': ChainHead) {
    && AbsChain(c') == AbsChain(c) && c'.references == c.references && c'.numRules == c.numRules
    && SameSizedRules(c, c')
    && forall i :: 0 <= i < |c.rules| ==> KindOk(c.rules[i]) ==> KindOk(c'.rules[i])
  }

  lemma {:induction false} SizesUpdated(cs: seq<ChainHead>, k: nat, c: ChainHead)
    requires SizesOk(cs) && k < |cs| && SameSizedRules(cs[k], c)
    ensures SizesOk(cs[k := c])
  {
    var cs' := cs[k := c];
    forall j | 0 <= j < |cs'| ensures SameSizedRules(cs[j], cs'[j]) {
    }
    SizesSame(cs, cs');
  }

  lemma {:induction false} RecountKeeps(cs: seq<ChainHead>, k: nat, c: ChainHead, original: seq<Counters>)
    requires k < |cs| && SameButCounters(cs[k], c) && ChainsOk(cs, original)
    requires ChainSlotsOk(c, original) && forall p: nat :: ChainMaps(p)(c) <= ChainMaps(p)(cs[k])
    ensures Abs(cs[k := c]) == Abs(cs) && ChainsOk(cs[k := c], original)
    ensures UserCount(cs[k := c]) == UserCount(cs)
  {
    SizesUpdated(cs, k, c);
    SameAbs(cs, k, c);
    TrackedUpdate(cs, k, c, original);
    TotalSame(cs, cs[k := c], IsUserHead(), IsUserHead());
  }

  lemma {:induction false} SameAbsRules(c: ChainHead, i: nat, r: RuleHead)
    requires i < |c.rules| && AbsRule(r) == AbsRule(c.rules[i])
    ensures AbsChain(c.(rules := c.rules[i := r])) == AbsChain(c)
  {
    MapUpdate(c.rules, i, r, AbsRule);
    assert Map(c.rules, AbsRule)[i] == AbsRule(c.rules[i]);
  }

  lemma {:induction false} ZeroedRuleOk(c: ChainHead, i: nat, original: seq<Counters>)
    requires i < |c.rules| && ChainSlotsOk(c, original)
    ensures SameButCounters(c, ZeroedRule(c, i)) && ChainSlotsOk(ZeroedRule(c, i), original)
    ensures forall p: nat :: ChainMaps(p)(ZeroedRule(c, i)) <= ChainMaps(p)(c)
  {
    var r := c.rules[i].(counterMap := ZeroMap(c.rules[i].counterMap));
    SameAbsRules(c, i, r);
    forall p: nat ensures ChainMaps(p)(ZeroedRule(c, i)) <= ChainMaps(p)(c) {
      TotalUpdate(c.rules, i, r, RuleMaps(p));
    }
  }

  lemma {:induction false} ZeroedPolicyOk(c: ChainHead, original: seq<Counters>)
    requires ChainSlotsOk(c, original)
    ensures SameButCounters(c, ZeroedPolicy(c)) && ChainSlotsOk(ZeroedPolicy(c), original)
    ensures forall p: nat :: ChainMaps(p)(ZeroedPolicy(c)) <= ChainMaps(p)(c)
  {
  }

  lemma {:induction false} CountedRuleOk(c: ChainHead, i: nat, counters: Counters, original: seq<Counters>)
    requires i < |c.rules| && ChainSlotsOk(c, original)
    ensures SameButCounters(c, CountedRule(c, i, counters)) && ChainSlotsOk(CountedRule(c, i, counters), original)
    ensures forall p: nat :: ChainMaps(p)(CountedRule(c, i, counters)) <= ChainMaps(p)(c)
  {
    var c' := CountedRule(c, i, counters);
    SameAbsRules(c, i, c'.rules[i]);
    forall p: nat ensures ChainMaps(p)(c') <= ChainMaps(p)(c) {
      TotalUpdate(c.rules, i, c'.rules[i], RuleMaps(p));
    }
  }

  lemma {:induction false} PolicyKeeps(cs: seq<ChainHead>, k: nat, c: ChainHead, original: seq<Counters>)
    requires k < |cs| && cs[k].hook > 0 && KindsOk(cs) && SizesOk(cs) && CachesOk(cs) && Tracked(cs, original)
    requires c == cs[k].(verdict := c.verdict, counters := c.counters, counterMap := c.counterMap)
    requires c.counterMap.NoMap? || c.counterMap.SetTo?
    ensures Abs(cs[k := c]) == Abs(cs)[k := Abs(cs)[k].(policy := c.verdict)]
    ensures KindsOk(cs[k := c]) && SizesOk(cs[k := c]) && CachesOk(cs[k := c]) && Tracked(cs[k := c], original)
    ensures UserCount(cs[k := c]) == UserCount(cs)
  {
    MapUpdate(cs, k, c, AbsChain);
    SizesUpdated(cs, k, c);
    AbsAt(cs, k);
    assert ChainSlotsOk(cs[k], original);
    TrackedUpdate(cs, k, c, original);
    TotalSame(cs, cs[k := c], IsUserHead(), IsUserHead());
    var rules := Abs(cs)[k].rules;
    forall j | 0 <= j < |cs| ensures cs[k := c][j].references == Calls(Abs(cs[k := c]), cs[j].name) {
      TotalUpdate(Abs(cs), k, AbsChain(c), CallsIn(cs[j].name));
    }
  }

  /** A builtin chain with a new policy; its counter is the one given, or starts anew. */
  function WithPolicy(c: ChainHead, verdict: int, counters: Option<Counters>): ChainHead {
    match counters
    case Some(value) => c.(verdict := verdict, counters := value, counterMap := SetTo)
    case None => c.(verdict := verdict, counterMap := NoMap)
  }

  lemma {:induction false} PolicyStep(cs: seq<ChainHead>, numChains: nat, index: seq<Name>, original: seq<Counters>,
                                      chain: Name, policy: Name, k: nat, c: ChainHead, counters: Option<Counters>)
    requires TableOk(cs, numChains, index, original) && k < |cs| && Lookup(Abs(cs), chain) == Some(k) && cs[k].hook > 0
    requires policy == "ACCEPT" || policy == "DROP"
    requires c == WithPolicy(cs[k], if policy == "ACCEPT" then ACCEPT else DROP, counters)
    ensures TableOk(cs[k := c], numChains, index, original)
    ensures SetPolicy(Abs(cs), chain, policy) == Ok(Abs(cs[k := c]))
  {
    AbsAt(cs, k);
    hide WellFormed, NamesDiffer, Ordered, RulesOk, KindsOk, SizesOk, CachesOk, Tracked, IndexOk, UserCount, Lookup;
    PolicyKeeps(cs, k, c, original);
    SetPolicyKeepsWellFormed(Abs(cs), chain, policy);
    SameChainsSameIndex(Abs(cs), Abs(cs[k := c]), index);
  }

  lemma {:induction false} PolicyRefused(cs: seq<ChainHead>, chain: Name, policy: Name)
    ensures Lookup(Abs(cs), chain).None? ==> SetPolicy(Abs(cs), chain, policy) == Err(ENOENT)
    ensures Lookup(Abs(cs), chain).Some? ==>
      var k := Lookup(Abs(cs), chain).value;
      && k < |cs|
      && (cs[k].hook == 0 ==> SetPolicy(Abs(cs), chain, policy) == Err(ENOENT))
      && (cs[k].hook > 0 && policy != "ACCEPT" && policy != "DROP" ==> SetPolicy(Abs(cs), chain, policy) == Err(EINVAL))
  {
    hide Lookup;
    if Lookup(Abs(cs), chain).Some? { AbsAt(cs, Lookup(Abs(cs), chain).value); }
  }

  /** An index with a slot for every so many user chains is good. */
  lemma {:induction false} FilledIsOk(cs: seq<ChainHead>, index: seq<Name>)
    requires NamesDiffer(Abs(cs)) && Ordered(Abs(cs)) && UserCount(cs) <= |cs|
    requires |index| == UserCount(cs) / BUCKET_LEN + if UserCount(cs) % BUCKET_LEN > 0 then 1 else 0
    requires var first := |cs| - UserCount(cs);
      forall k :: 0 <= k < |index| && BUCKET_LEN * k < UserCount(cs) ==> index[k] == cs[first + BUCKET_LEN * k].name
    ensures IndexOk(Abs(cs), index)
  {
    var first := |cs| - UserCount(cs);
    Heads(cs);
    UserPositions(cs);
    hide NamesDiffer, Ordered, IndexOk, UserCount, Abs;
    forall k | 0 <= k < |index|
      ensures first + BUCKET_LEN * k < |Abs(cs)| && index[k] == Abs(cs)[first + BUCKET_LEN * k].name
    {
      assert BUCKET_LEN * k < |cs| - first;
    }
    BuiltIsOk(Abs(cs), first, index);
  }

  lemma {:induction false} IndexIsSorted(rs: Ruleset, index: seq<Name>)
    requires IndexOk(rs, index)
    ensures Sorted(index)
  {
  }

  /** What is left of the chains when a user chain goes. */
  lemma {:induction false} ChainGone(cs: seq<ChainHead>, d: nat)
    requires NamesDiffer(Abs(cs)) && Ordered(Abs(cs)) && HooksOk(Abs(cs)) && d < |cs| && cs[d].hook == 0
    ensures d < |Abs(cs)| && Abs(cs)[d].name == cs[d].name && Abs(cs)[d].hook == 0
    ensures var cs' := RemoveAt(cs, d);
      && Abs(cs') == RemoveAt(Abs(cs), d) && NamesDiffer(Abs(cs')) && Ordered(Abs(cs'))
      && UserCount(cs') == UserCount(cs) - 1
      && (if d < |cs'| then cs'[d].name else "") == (if d + 1 < |Abs(cs)| then Abs(cs)[d + 1].name else "")
  {
    AbsAt(cs, d);
    if d + 1 < |cs| { AbsAt(cs, d + 1); }
    MapRemove(cs, d, AbsChain);
    TotalRemove(cs, d, IsUserHead());
    DeleteKeepsOrder(Abs(cs), d);
    hide NamesDiffer, Ordered, HooksOk;
  }
}
