/** The table handle: the library's editing interface over the cached chains. */
module Handles {
  import opened Names
  import opened Seqs
  import opened Rulesets
  import opened Editing
  import opened Cache
  import opened ChainIndex
  import opened LookupFacts
  import opened Deletion
  import opened HandleFacts
  import opened Slots

  class Handle {
    var chains: seq<ChainHead>
    var numChains: nat
    var index: seq<Name>
    var changed: bool
    /** The counters that came with the table when it was read from the kernel. */
    const original: seq<Counters>

    ghost function Rules(): Ruleset
      reads this
    {
      Abs(chains)
    }

    /** Where the counters are to come from. */
    ghost function Slots(): seq<ChainSlots>
      reads this
    {
      SlotsOf(chains)
    }

    ghost predicate Valid()
      reads this
    {
      TableOk(chains, numChains, index, original)
    }

    lemma {:induction false} Sound()
      requires Valid()
      ensures ChainsOk(chains, original) && numChains == UserCount(chains) && IndexOk(Rules(), index)
      ensures NamesDiffer(Rules()) && Ordered(Rules()) && HooksOk(Rules()) && Rules() == Abs(chains)
    {
      hide NamesDiffer, Ordered, HooksOk, RulesOk, IndexOk, UserCount;
    }

    /** What a search for a chain needs. */
    lemma {:induction false} Searchable()
      requires Valid()
      ensures NamesDiffer(Rules()) && Ordered(Rules()) && IndexOk(Rules(), index) && numChains == UserCount(chains)
      ensures Rules() == Abs(chains)
      ensures forall k :: 0 <= k < |chains| ==> ChainSlotsOk(chains[k], original)
    {
    }

    /** A handle around a parsed table, before its index is built. */
    constructor (chains: seq<ChainHead>, numChains: nat, original: seq<Counters>)
      requires ChainsOk(chains, original)
      requires numChains == UserCount(chains)
      ensures Valid() && this.chains == chains && !changed && this.original == original
    {
      this.chains := chains;
      this.numChains := numChains;
      this.index := [];
      this.changed := false;
      this.original := original;
      new;
      RebuildIndex();
    }

    // ------------------------------------------------------------------------------- chain index

    /** Where the list walk starts for slot `slot`: the chain that the slot points to. */
    function SlotPosition(slot: nat): (p: nat)
      reads this
      requires slot < |index|
      ensures p <= |chains|
    {
      match Lookup(Abs(chains), index[slot])
      case None => |chains|
      case Some(k) => k
    }

    /** Allocates an index for the current number of chains and fills it. */
    method RebuildIndex()
      requires NamesDiffer(Rules()) && Ordered(Rules()) && numChains == UserCount(chains)
      modifies this`index
      ensures IndexOk(Rules(), index)
      ensures |index| == numChains / 40 + if numChains % 40 > 0 then 1 else 0
    {
      var elems := numChains / BUCKET_LEN + if numChains % BUCKET_LEN > 0 then 1 else 0;
      index := seq(elems, _ => "");
      UserPositions(chains);
      ghost var first := |chains| - numChains;
      var count, i := 0, 0;
      while i < |chains|
        invariant i <= |chains| && |index| == elems
        invariant count == if i <= first then 0 else i - first
        invariant forall k :: 0 <= k < elems && BUCKET_LEN * k < count ==>
          index[k] == chains[first + BUCKET_LEN * k].name
      {
        if chains[i].hook == 0 {
          var slot := count / BUCKET_LEN;
          if slot >= |index| {
            break;
          }
          if count % BUCKET_LEN == 0 {
            index := index[slot := chains[i].name];
          }
          count := count + 1;
        }
        i := i + 1;
      }
      FilledIsOk(chains, index);
    }

    // ------------------------------------------------------------------------------------ lookup

    /** Walks the builtin chains at the front of the list. */
    method ScanBuiltins(name: Name) returns (found: Option<nat>, first: nat)
      requires NamesDiffer(Rules())
      ensures found.Some? ==> Lookup(Rules(), name) == found
      ensures found.None? ==> first <= |chains| && (first < |chains| ==> chains[first].hook == 0)
      ensures found.None? ==> forall j :: 0 <= j < first ==> chains[j].hook > 0 && chains[j].name != name
    {
      Heads(chains);
      first := 0;
      while first < |chains| && chains[first].hook > 0
        invariant first <= |chains|
        invariant forall j :: 0 <= j < first ==> chains[j].hook > 0 && chains[j].name != name
      {
        if chains[first].name == name {
          LookupAt(Rules(), first);
          return Some(first), first;
        }
        first := first + 1;
      }
      return None, first;
    }

    /** Walks the sorted user chains from `start` on, and stops early at a chain beyond `name`. */
    method ScanUsers(name: Name, start: nat) returns (found: Option<nat>)
      requires NamesDiffer(Rules()) && Ordered(Rules()) && start <= |chains|
      requires forall j :: 0 <= j < start ==> chains[j].name != name
      ensures found == Lookup(Rules(), name)
    {
      Heads(chains);
      Trichotomy(name, name);
      var pos := start;
      while pos < |chains|
        invariant start <= pos <= |chains|
        invariant forall j :: 0 <= j < pos ==> chains[j].name != name
      {
        var res := Compare(chains[pos].name, name);
        if res == 0 {
          LookupAt(Rules(), pos);
          return Some(pos);
        }
        if res > 0 && chains[pos].hook == 0 {
          Antisymmetric(chains[pos].name, name);
          NothingAfter(Rules(), name, pos);
          NotFound(Rules(), name, pos);
          return None;
        }
        pos := pos + 1;
      }
      NotFound(Rules(), name, pos);
      return None;
    }

    /** Finds the chain called `name`, by way of the index: exactly what a scan of the list finds. */
    method FindLabel(name: Name) returns (found: Option<nat>)
      requires NamesDiffer(Rules()) && Ordered(Rules()) && IndexOk(Rules(), index)
      requires numChains == UserCount(chains) && name != ""
      ensures found == Lookup(Rules(), name)
      ensures found.Some? ==> found.value < |chains| && chains[found.value].name == name
    {
      Heads(chains);
      var first;
      found, first := ScanBuiltins(name);
      if found.Some? {
        return;
      }
      UserPositions(chains);
      var pos := first;
      if |index| > 0 {
        var slot, probes := BinarySearch(index, name);
        if index[slot] != "" {
          UserFound(Rules(), index, slot);
          pos := SlotPosition(slot);
          NothingBeforeStart(Rules(), index, name, slot, pos, first);
        }
      }
      Trichotomy(name, name);
      if numChains == 0 {
        NotFound(Rules(), name, |chains|);
        return None;
      }
      found := ScanUsers(name, pos);
    }

    /** Whether `name` is a builtin chain. */
    method IsBuiltin(name: Name) returns (builtin: bool)
      requires NamesDiffer(Rules()) && Ordered(Rules()) && IndexOk(Rules(), index)
      requires numChains == UserCount(chains) && name != ""
      ensures builtin <==> exists k :: 0 <= k < |Rules()| && Rules()[k].name == name && Rules()[k].hook > 0
    {
      Heads(chains);
      var found := FindLabel(name);
      match found
      case None => builtin := false;
      case Some(k) =>
        builtin := chains[k].hook > 0;
        assert Rules()[k].name == name;
    }

    /** Number of jumps to a chain. */
    method GetReferences(chain: Name) returns (r: Result<nat>)
      requires Valid() && chain != ""
      ensures r == if Lookup(Rules(), chain).None? then Err(ENOENT) else Ok(Calls(Rules(), chain))
    {
      Heads(chains);
      var found := FindLabel(chain);
      match found
      case None => r := Err(ENOENT);
      case Some(k) => r := Ok(chains[k].references);
    }

    // -------------------------------------------------------------------------- creating, deleting

    /** Puts a chain head into the sorted list and repairs slot 0 of the index. */
    method InsertChain(c: ChainHead)
      requires NamesDiffer(Rules()) && Ordered(Rules()) && IndexOk(Rules(), index)
      requires c.hook == 0 && c.name != "" && c.rules == [] && Lookup(Rules(), c.name).None?
      modifies this`chains, this`index
      ensures chains == InsertAt(old(chains), Place(old(Rules()), c.name), c)
      ensures IndexOk(Rules(), index)
    {
      Heads(chains);
      ghost var rs, index0 := Rules(), index;
      var slot, pos := 1, |chains|;
      if |index| > 0 {
        ghost var probes;
        slot, probes := BinarySearch(index, c.name);
        SlotZero(rs, index, c.name, slot);
        if index[slot] != "" {
          UserFound(rs, index, slot);
        }
        pos := SlotPosition(slot);
      }
      if |index| > 0 && slot == 0 && Compare(c.name, index[0]) <= 0 {
        index := index[0 := c.name];
        pos := 0;
      }
      if pos == |chains| {
        pos := 0;
      }
      StartIsEarly(rs, index0, c.name, slot, pos);
      IndexAfterCreate(rs, index0, c.name, index);
      assert AbsChain(c) == Chain(c.name, 0, RETURN, []);
      MapInsert(chains, Place(rs, c.name), c, AbsChain);
      var p := WalkToPlace(chains, pos, c.name);
      chains := InsertAt(chains, p, c);
    }

    method CreateChain(chain: Name) returns (r: Result<()>)
      requires Valid() && chain != ""
      modifies this
      ensures Valid()
      ensures Does(old(Rules()), Create(old(Rules()), chain), r, Rules())
      ensures changed <==> old(changed) || r.Ok?
      ensures r.Err? ==> chains == old(chains)
      ensures r.Ok? ==> chains == InsertAt(old(chains), Place(old(Rules()), chain), NewChain(chain, 0))
      // The index is built anew when more than 355 chains have no slot.
      ensures r.Ok? ==> numChains <= 40 * |index| + 355
    {
      Sound();
      hide *;
      var found := FindLabel(chain);
      RefusingDoes(Rules());
      CreateWhen(Rules(), chain);
      if found.Some? || chain == "DROP" || chain == "ACCEPT" || chain == "QUEUE" || chain == "RETURN" {
        return Err(EEXIST);
      }
      if |chain| > MAX_NAME {
        return Err(EINVAL);
      }
      CreateKeeps(chains, chain, original);
      ghost var cs' := CreatedIn(chains, chain);
      CreatedIs(chains, chain);
      SortedChains(cs', original);
      numChains := numChains + 1;
      InsertChain(NewChain(chain, 0));
      assert chains == cs';
      var exceeded := numChains - |index| * BUCKET_LEN;
      if exceeded > INSERT_MAX {
        RebuildIndex();
      }
      changed := true;
      TableIs(chains, numChains, index, original);
      SucceedingDoes(old(Rules()), Rules());
      return Ok(());
    }

    /** Takes the chain at `d` out of the list; if the index points to it, moves the slot on to the next
        chain, or rebuilds the index when that chain belongs to another slot. */
    method UnlinkChain(d: nat)
      requires NamesDiffer(Rules()) && Ordered(Rules()) && IndexOk(Rules(), index)
      requires d < |chains| && chains[d].hook == 0 && numChains == UserCount(chains) - 1
      requires HooksOk(Rules())
      modifies this`chains, this`index
      ensures chains == RemoveAt(old(chains), d)
      ensures IndexOk(Rules(), index)
    {
      ghost var cs, rs := chains, Rules();
      ChainGone(cs, d);
      IndexIsSorted(rs, index);
      hide NamesDiffer, Ordered, HooksOk, IndexOk, UserCount, Abs, RemoveAt, Sorted, IsSlot;
      var name := chains[d].name;
      var slot, pointed := 0, false;
      if |index| > 0 {
        ghost var probes;
        slot, probes := BinarySearch(index, name);
        pointed := index[slot] == name;
        if name in index {
          SlotOfMember(index, name, slot);
        }
      }
      chains := RemoveAt(chains, d);
      if pointed {
        var next := if d < |chains| then chains[d].name else "";
        var slot2, probes := BinarySearch(index, next);
        if slot != slot2 {
          RebuildIndex();
        } else {
          IndexAfterShift(rs, index, d, slot);
          index := index[slot := next];
        }
      } else {
        IndexAfterDelete(rs, index, d);
      }
    }

    method DeleteChain(chain: Name) returns (r: Result<()>)
      requires Valid() && chain != ""
      modifies this
      ensures Valid()
      ensures Does(old(Rules()), Delete(old(Rules()), chain), r, Rules())
      ensures changed <==> old(changed) || r.Ok?
      ensures r.Err? ==> chains == old(chains)
      ensures r.Ok? ==> var d := Lookup(old(Rules()), chain).value;
        d < |old(chains)| && chains == RemoveAt(old(chains), d)
    {
      Heads(chains);
      var found := FindLabel(chain);
      if found.None? {
        return Err(ENOENT);
      }
      var d := found.value;
      LookupAt(Rules(), d);
      var builtin := IsBuiltin(chain);
      if builtin {
        return Err(EINVAL);
      }
      assert Rules()[d].hook == 0;
      var references := GetReferences(chain);
      if references.value > 0 {
        return Err(EMLINK);
      }
      if chains[d].numRules > 0 {
        return Err(ENOTEMPTY);
      }
      AbsAt(chains, d);
      DeleteKeeps(chains, d, original);
      ghost var cs' := RemoveAt(chains, d);
      numChains := numChains - 1;
      UnlinkChain(d);
      assert chains == cs';
      changed := true;
      return Ok(());
    }

    // ------------------------------------------------------------------------------------- targets

    /** Counts one more jump to the chain at `k`. */
    method AddReference(k: nat)
      requires k < |chains|
      modifies this`chains
      ensures chains == old(chains)[k := old(chains)[k].(references := old(chains)[k].references + 1)]
      ensures Rules() == old(Rules())
    {
      Heads(chains);
      SameAbs(chains, k, chains[k].(references := chains[k].references + 1));
      chains := chains[k := chains[k].(references := chains[k].references + 1)];
    }

    method DropReference(target: Name)
      requires exists k :: 0 <= k < |chains| && chains[k].name == target && chains[k].references > 0
      requires NamesDiffer(Rules())
      modifies this`chains
      ensures Rules() == old(Rules())
      ensures References(old(chains), chains, target, -1)
    {
      Heads(chains);
      ghost var rs := Rules();
      var k := Lookup(Abs(chains), target).value;
      assert exists j :: 0 <= j < |chains| && chains[j].name == target && rs[j].name == target;
      SameAbs(chains, k, chains[k].(references := chains[k].references - 1));
      chains := chains[k := chains[k].(references := chains[k].references - 1)];
    }

    /** Resolves the target of a new rule; a jump counts as a reference from now on. */
    method MapTarget(e: Entry, counterMap: CounterMap) returns (r: Result<RuleHead>)
      requires Valid()
      modifies this`chains, this`changed
      ensures Rules() == old(Rules()) && (changed <==> old(changed) || (r.Ok? && r.value.kind.Module?))
      ensures RightHead(Rules(), e, counterMap, r)
      ensures r.Ok? && r.value.kind.Jump? ==> References(old(chains), chains, r.value.kind.target, 1)
      ensures r.Err? || !r.value.kind.Jump? ==> chains == old(chains)
    {
      var head := RuleHead(Fallthrough, e, EntrySize(e), counterMap, 0, 0);
      MappedIsRight(Rules(), e, counterMap);
      hide RightHead, StandardMap, Lookup, TableOk;
      if e.target.name == "" {
        return Ok(head);
      }
      var verdict := LabelVerdict(e.target.name);
      if verdict.Some? {
        StandardIsNoJump(head, verdict.value);
        return StandardMap(head, verdict.value);
      }
      r := MapNamed(head);
    }

    /** Resolves a target that is neither empty nor a reserved name: a user chain or an extension. */
    method MapNamed(head: RuleHead) returns (r: Result<RuleHead>)
      requires Valid() && head.kind.Fallthrough?
      requires head.entry.target.name != "" && LabelVerdict(head.entry.target.name).None?
      modifies this`chains, this`changed
      ensures Rules() == old(Rules()) && (changed <==> old(changed) || (r.Ok? && r.value.kind.Module?))
      ensures r == Mapped(Rules(), head)
      ensures r.Ok? && r.value.kind.Jump? ==> References(old(chains), chains, r.value.kind.target, 1)
      ensures r.Err? || !r.value.kind.Jump? ==> chains == old(chains)
    {
      Searchable();
      hide *;
      var name := head.entry.target.name;
      NamedMapped(Rules(), head);
      var builtin := IsBuiltin(name);
      if builtin {
        BuiltinFound(Rules(), name);
        return Err(EINVAL);
      }
      var found := FindLabel(name);
      if found.Some? {
        OneMoreReference(chains, found.value, name);
        AddReference(found.value);
        return Ok(head.(kind := Jump(name)));
      }
      changed := true;
      return Ok(head.(kind := Module));
    }

    // ----------------------------------------------------------------------------------- rule edits

    /** Links a resolved rule into chain `k` at place `n`. */
    method LinkRule(k: nat, n: nat, r: RuleHead, ghost before: seq<ChainHead>)
      requires TableOk(before, numChains, index, original) && Linked(before, chains, r) && Rules() == Abs(before)
      requires k < |chains| && n <= |chains[k].rules| && n <= |Rules()[k].rules|
      requires KindOk(r) && SizeOk(r) && RuleOk(Rules(), AbsRule(r)) && r.counterMap.SetTo?
      modifies this`chains
      ensures Valid()
      ensures Rules() == WithRules(Abs(before), k, InsertAt(Abs(before)[k].rules, n, AbsRule(r)))
      ensures |chains| == |old(chains)| && |chains[k].rules| == |old(chains)[k].rules| + 1
      ensures Slots() == SlotPut(SlotsOf(before), k, n, Slot(SetTo, r.entry.counters))
    {
      hide TableOk, ChainsOk, Linked, WithRules, RuleOk, KindOk, SizeOk, SlotsOf, SlotPut;
      SlotsOfLinked(before, chains, r);
      SlotsLinked(chains, k, n, r);
      LinkStep(before, chains, k, n, r, numChains, index, original);
      var c := chains[k];
      chains := chains[k := c.(rules := InsertAt(c.rules, n, r), numRules := c.numRules + 1)];
    }

    /** Inserts `e` into `chain` so that it becomes rule number `rulenum`, counting from 0. */
    method InsertEntry(chain: Name, e: Entry, rulenum: nat) returns (r: Result<()>)
      requires Valid() && chain != ""
      modifies this
      ensures Valid()
      ensures Does(old(Rules()), Insert(old(Rules()), chain, e, rulenum), r, Rules())
      ensures changed <==> old(changed) || r.Ok?
      ensures r.Err? ==> Slots() == old(Slots())
      ensures r.Ok? ==>
        Slots() == SlotPut(old(Slots()), Lookup(old(Rules()), chain).value, rulenum, Slot(SetTo, e.counters))
    {
      hide SlotsOf, SlotPut;
      Heads(chains);
      var found := FindLabel(chain);
      if found.None? {
        return Err(ENOENT);
      }
      var k := found.value;
      if rulenum > chains[k].numRules {
        return Err(E2BIG);
      }
      ghost var before := chains;
      hide RightHead, RuleFor, AbsRule, KindOk, SizeOk, RuleOk, WithRules;
      var head := MapTarget(e, SetTo);
      HeadFits(Rules(), e, head);
      if head.Err? {
        return Err(head.errno);
      }
      LinkRule(k, rulenum, head.value, before);
      changed := true;
      return Ok(());
    }

    method AppendEntry(chain: Name, e: Entry) returns (r: Result<()>)
      requires Valid() && chain != ""
      modifies this
      ensures Valid()
      ensures Does(old(Rules()), Append(old(Rules()), chain, e), r, Rules())
      ensures changed <==> old(changed) || r.Ok?
      ensures r.Err? ==> Slots() == old(Slots())
      ensures r.Ok? ==> var k := Lookup(old(Rules()), chain).value;
        k < |old(Slots())| && Slots() == SlotPut(old(Slots()), k, |old(Slots())[k].rules|, Slot(SetTo, e.counters))
    {
      hide SlotsOf, SlotPut;
      Heads(chains);
      var found := FindLabel(chain);
      if found.None? {
        return Err(ENOENT);
      }
      var k := found.value;
      SlotsAt(chains, k);
      ghost var before := chains;
      hide RightHead, RuleFor, AbsRule, KindOk, SizeOk, RuleOk, WithRules;
      var head := MapTarget(e, SetTo);
      HeadFits(Rules(), e, head);
      if head.Err? {
        return Err(head.errno);
      }
      LinkRule(k, |chains[k].rules|, head.value, before);
      changed := true;
      return Ok(());
    }

    /** If rule `n` of chain `k` is a jump, counts one jump less to its target. */
    method DropJump(k: nat, n: nat)
      requires Valid() && k < |chains| && n < |chains[k].rules|
      modifies this`chains
      ensures Unlinked(old(chains), chains, old(chains)[k].rules[n]) && Rules() == old(Rules())
    {
      var r := chains[k].rules[n];
      if r.kind.Jump? {
        JumpHasReference(chains, k, n);
        DropReference(r.kind.target);
      }
    }

    /** Unlinks rule `n` of chain `k`; a jump no longer counts as a reference. */
    method DeleteRule(k: nat, n: nat)
      requires Valid() && k < |chains| && n < |chains[k].rules| && n < |Rules()[k].rules|
      modifies this`chains
      ensures Valid()
      ensures Rules() == WithRules(old(Rules()), k, RemoveAt(old(Rules())[k].rules, n))
      ensures |chains| == |old(chains)| && |chains[k].rules| == |old(chains)[k].rules| - 1
      ensures Slots() == SlotTaken(old(Slots()), k, n)
    {
      Heads(chains);
      hide TableOk, ChainsOk, Unlinked, Abs, WithRules, SlotsOf, SlotTaken;
      ghost var before := chains;
      DropJump(k, n);
      UnlinkStep(before, chains, k, n, numChains, index, original);
      SlotsOfLinked(before, chains, before[k].rules[n]);
      SlotsUnlinked(chains, k, n);
      var c := chains[k];
      chains := chains[k := c.(rules := RemoveAt(c.rules, n), numRules := c.numRules - 1)];
    }

    /** Replaces rule `rulenum`: the new rule is linked behind the old one, which is then unlinked. */
    method ReplaceEntry(chain: Name, e: Entry, rulenum: nat) returns (r: Result<()>)
      requires Valid() && chain != ""
      modifies this
      ensures Valid()
      ensures Does(old(Rules()), Replace(old(Rules()), chain, e, rulenum), r, Rules())
      ensures changed <==> old(changed) || r.Ok?
      ensures r.Err? ==> Slots() == old(Slots())
      ensures r.Ok? ==>
        Slots() == SlotSet(old(Slots()), Lookup(old(Rules()), chain).value, rulenum, Slot(SetTo, e.counters))
    {
      hide SlotsOf, SlotSet;
      Heads(chains);
      var found := FindLabel(chain);
      if found.None? {
        return Err(ENOENT);
      }
      var k := found.value;
      if rulenum >= chains[k].numRules {
        return Err(E2BIG);
      }
      r := ReplaceRule(k, e, rulenum);
    }

    /** Links the new rule in behind the old one and takes that one out. */
    method ReplaceRule(k: nat, e: Entry, n: nat) returns (r: Result<()>)
      requires Valid() && k < |chains| && n < |chains[k].rules| && k < |Rules()| && n < |Rules()[k].rules|
      modifies this
      ensures Valid() && (changed <==> old(changed) || r.Ok?)
      ensures match RuleFor(old(Rules()), e)
        case Err(errno) => r == Err(errno) && Rules() == old(Rules())
        case Ok(rule) => r == Ok(()) && Rules() == WithRules(old(Rules()), k, old(Rules())[k].rules[n := rule])
      ensures r.Err? ==> Slots() == old(Slots())
      ensures r.Ok? ==> Slots() == SlotSet(old(Slots()), k, n, Slot(SetTo, e.counters))
    {
      ghost var before, rs := chains, Rules();
      Searchable();
      hide *;
      var head := MapTarget(e, SetTo);
      HeadFits(rs, e, head);
      if head.Err? {
        return Err(head.errno);
      }
      LinkedKeepsRules(before, chains, head.value, k);
      SpliceRule(k, n, head.value, before);
      changed := true;
      return Ok(());
    }

    /** Puts a resolved rule in the place of rule `n` of chain `k`. */
    method SpliceRule(k: nat, n: nat, r: RuleHead, ghost before: seq<ChainHead>)
      requires TableOk(before, numChains, index, original) && Linked(before, chains, r) && Rules() == Abs(before)
      requires k < |chains| && n < |chains[k].rules| && k < |Rules()| && n < |Rules()[k].rules|
      requires KindOk(r) && SizeOk(r) && RuleOk(Rules(), AbsRule(r)) && r.counterMap.SetTo?
      requires k < |before| && chains[k].rules == before[k].rules
      modifies this`chains
      ensures Valid()
      ensures Rules() == WithRules(Abs(before), k, Abs(before)[k].rules[n := AbsRule(r)])
      ensures Slots() == SlotSet(SlotsOf(before), k, n, Slot(SetTo, r.entry.counters))
    {
      hide *;
      SlotsAt(before, k);
      SlotSpliced(SlotsOf(before), k, n, Slot(SetTo, r.entry.counters));
      LinkRule(k, n + 1, r, before);
      SplicedBack(Abs(before), Rules(), k, n, AbsRule(r));
      DeleteRule(k, n);
    }

    method DeleteNumEntry(chain: Name, rulenum: nat) returns (r: Result<()>)
      requires Valid() && chain != ""
      modifies this
      ensures Valid()
      ensures Does(old(Rules()), DeleteNum(old(Rules()), chain, rulenum), r, Rules())
      ensures changed <==> old(changed) || r.Ok?
      ensures r.Err? ==> Slots() == old(Slots())
      ensures r.Ok? ==> Slots() == SlotTaken(old(Slots()), Lookup(old(Rules()), chain).value, rulenum)
    {
      hide SlotsOf, SlotTaken;
      Heads(chains);
      var found := FindLabel(chain);
      if found.None? {
        return Err(ENOENT);
      }
      var k := found.value;
      if rulenum >= chains[k].numRules {
        return Err(E2BIG);
      }
      DeleteRule(k, rulenum);
      changed := true;
      return Ok(());
    }

    /** Resolves an entry that is only to be compared with: the jump it may hold does not count. */
    method MapPattern(e: Entry) returns (r: Result<RuleHead>)
      requires Valid()
      modifies this`chains, this`changed
      ensures chains == old(chains) && (changed <==> old(changed) || (r.Ok? && r.value.kind.Module?))
      ensures r.Err? ==> RuleFor(Rules(), e) == Err(r.errno)
      ensures r.Ok? ==> RuleFor(Rules(), e) == Ok(AbsRule(r.value)) && r.value.entry.matches == e.matches
      ensures r.Ok? ==> TargetSize(r.value.entry.target) == TargetSize(e.target)
    {
      Searchable();
      hide TableOk, RuleFor, AbsRule, NamesDiffer, Ordered, IndexOk, Abs;
      ghost var before := chains;
      r := MapTarget(e, NoMap);
      if r.Ok? && r.value.kind.Jump? {
        JumpIsReferenced(before, chains, e, NoMap, r.value);
        DropReference(r.value.kind.target);
        ReferencesCancel(before, chains);
      }
    }

    /** Finds the first rule of chain `k` that is the same as the pattern. */
    method FindSame(k: nat, pattern: RuleHead, mask: Bytes) returns (n: Option<nat>)
      requires k < |chains| && k < |Rules()| && |mask| >= EntrySize(pattern.entry)
      ensures n == FirstSame(Rules()[k].rules, AbsRule(pattern), mask, 0)
    {
      ghost var rules := Rules()[k].rules;
      AbsAt(chains, k);
      var i := 0;
      while i < |chains[k].rules|
        invariant i <= |chains[k].rules|
        invariant forall j :: 0 <= j < i ==> !Same(AbsRule(pattern), rules[j], mask)
      {
        var same := RuleIsSame(pattern, chains[k].rules[i], mask);
        if same {
          FirstSameIs(rules, AbsRule(pattern), mask, i);
          return Some(i);
        }
        i := i + 1;
      }
      return None;
    }

    /** Deletes the first rule of `chain` that is the same as `e` under `mask`. */
    method DeleteEntry(chain: Name, e: Entry, mask: Bytes) returns (r: Result<()>)
      requires Valid() && chain != "" && |mask| >= EntrySize(e)
      modifies this
      ensures Valid()
      ensures Does(old(Rules()), DeleteSame(old(Rules()), chain, e, mask), r, Rules())
      // Resolving an extension marks the handle as changed, whether or not a rule is then deleted.
      ensures changed <==> old(changed) || r.Ok? || TouchedBy(old(Rules()), chain, e)
      ensures r.Err? ==> Slots() == old(Slots())
      ensures r.Ok? ==> var k := Lookup(old(Rules()), chain).value;
        && k < |old(Rules())| && RuleFor(old(Rules()), e).Ok?
        && var n := FirstSame(old(Rules())[k].rules, RuleFor(old(Rules()), e).value, mask, 0);
           n.Some? && Slots() == SlotTaken(old(Slots()), k, n.value)
    {
      hide SlotsOf, SlotTaken;
      Heads(chains);
      var found := FindLabel(chain);
      if found.None? {
        return Err(ENOENT);
      }
      var k := found.value;
      var pattern := MapPattern(e);
      if pattern.Err? {
        return Err(pattern.errno);
      }
      ModuleIsExtension(pattern.value);
      var n := FindSame(k, pattern.value, mask);
      if n.None? {
        return Err(ENOENT);
      }
      DeleteRule(k, n.value);
      changed := true;
      return Ok(());
    }

    /** Unlinks all rules of a chain, front to back. */
    method FlushEntries(chain: Name) returns (r: Result<()>)
      requires Valid() && chain != ""
      modifies this
      ensures Valid()
      ensures Does(old(Rules()), Flush(old(Rules()), chain), r, Rules())
      ensures changed <==> old(changed) || r.Ok?
      ensures r.Err? ==> Slots() == old(Slots())
      ensures r.Ok? ==> Slots() == SlotsCleared(old(Slots()), Lookup(old(Rules()), chain).value)
    {
      hide SlotsOf, SlotsCleared;
      Heads(chains);
      var found := FindLabel(chain);
      if found.None? {
        return Err(ENOENT);
      }
      var k := found.value;
      EmptyChain(k);
      changed := true;
      return Ok(());
    }

    method EmptyChain(k: nat)
      requires Valid() && k < |chains| && k < |Rules()|
      modifies this`chains
      ensures Valid() && Rules() == WithRules(old(Rules()), k, [])
      ensures Slots() == SlotsCleared(old(Slots()), k)
    {
      ghost var rs, ss := Rules(), Slots();
      SlotsAt(chains, k);
      while |chains[k].rules| > 0
        invariant Valid() && k < |chains| && rs == old(Rules()) && |Rules()| == |rs|
        invariant Rules() == WithRules(rs, k, Rules()[k].rules) && SlotsBut(ss, Slots(), k)
        decreases |chains[k].rules|
      {
        DeleteFirst(k, rs, ss);
      }
      Heads(chains);
      assert Rules()[k].rules == [];
      SlotsAt(chains, k);
      NothingLeft(ss, Slots(), k);
    }

    /** Unlinks the first rule of chain `k`, all of whose other chains are those of `rs` and `ss`. */
    method DeleteFirst(k: nat, ghost rs: Ruleset, ghost ss: seq<ChainSlots>)
      requires Valid() && k < |chains| && |chains[k].rules| > 0
      requires k < |rs| == |Rules()| && Rules() == WithRules(rs, k, Rules()[k].rules) && SlotsBut(ss, Slots(), k)
      modifies this`chains
      ensures Valid() && k < |chains| && |chains[k].rules| == |old(chains)[k].rules| - 1
      ensures |rs| == |Rules()| && Rules() == WithRules(rs, k, Rules()[k].rules) && SlotsBut(ss, Slots(), k)
    {
      Heads(chains);
      TakenBut(ss, Slots(), k, 0);
      hide TableOk, Abs, SlotsOf, SlotTaken, SlotsBut, RemoveAt;
      DeleteRule(k, 0);
    }

    // --------------------------------------------------------------------------- counters, policies

    method MarkChanged()
      requires Valid()
      modifies this`changed
      ensures Valid() && changed && Rules() == old(Rules())
    {
      changed := true;
    }

    /** Replaces the counters part of chain `k`. */
    method Recount(k: nat, c: ChainHead)
      requires Valid() && k < |chains| && SameButCounters(chains[k], c)
      requires ChainSlotsOk(c, original) && forall p: nat :: ChainMaps(p)(c) <= ChainMaps(p)(chains[k])
      modifies this`chains
      ensures Valid() && Rules() == old(Rules()) && chains == old(chains)[k := c]
    {
      RecountKeeps(chains, k, c, original);
      chains := chains[k := c];
    }

    method ZeroCounter(chain: Name, rulenum: nat) returns (r: Result<()>)
      requires Valid() && chain != ""
      modifies this
      ensures Valid() && Rules() == old(Rules())
      ensures match Lookup(Rules(), chain)
        case None => r == Err(ENOENT)
        case Some(k) =>
          if 0 < rulenum <= |old(chains)[k].rules| then
            r == Ok(()) && changed && chains == old(chains)[k := ZeroedRule(old(chains)[k], rulenum - 1)]
          else r == Err(E2BIG)
      ensures r.Err? ==> chains == old(chains) && changed == old(changed)
    {
      hide *;
      Searchable();
      var found := FindLabel(chain);
      if found.None? {
        return Err(ENOENT);
      }
      var k := found.value;
      if rulenum == 0 || rulenum > |chains[k].rules| {
        return Err(E2BIG);
      }
      ZeroedRuleOk(chains[k], rulenum - 1, original);
      MarkChanged();
      Recount(k, ZeroedRule(chains[k], rulenum - 1));
      return Ok(());
    }

    method ZeroEntries(chain: Name) returns (r: Result<()>)
      requires Valid() && chain != ""
      modifies this
      ensures Valid() && Rules() == old(Rules())
      ensures match Lookup(Rules(), chain)
        case None => r == Err(ENOENT)
        case Some(k) => r == Ok(()) && changed && chains == old(chains)[k := ZeroedChain(old(chains)[k])]
      ensures r.Err? ==> chains == old(chains) && changed == old(changed)
    {
      hide *;
      Searchable();
      var found := FindLabel(chain);
      if found.None? {
        return Err(ENOENT);
      }
      var k := found.value;
      ghost var c := chains[k];
      ZeroedPolicyOk(chains[k], original);
      ZeroedUpToSteps(c, 0);
      MarkChanged();
      Recount(k, ZeroedPolicy(chains[k]));
      ZeroRules(k, c);
      return Ok(());
    }

    /** Zeroes the rules of chain `k`, whose policy is zeroed already. */
    method ZeroRules(k: nat, ghost c: ChainHead)
      requires Valid() && k < |chains| && chains[k] == ZeroedUpTo(c, 0)
      modifies this`chains
      ensures Valid() && Rules() == old(Rules())
      ensures chains == old(chains)[k := ZeroedChain(c)]
    {
      ghost var start := chains;
      var i := 0;
      while i < |chains[k].rules|
        invariant Valid() && Rules() == old(Rules())
        invariant k < |chains| && i <= |chains[k].rules| == |c.rules|
        invariant chains == start[k := ZeroedUpTo(c, i)]
      {
        ZeroedRuleOk(chains[k], i, original);
        ZeroedUpToSteps(c, i);
        Recount(k, ZeroedRule(chains[k], i));
        i := i + 1;
      }
    }

    method SetCounter(chain: Name, rulenum: nat, counters: Counters) returns (r: Result<()>)
      requires Valid() && chain != ""
      modifies this
      ensures Valid() && Rules() == old(Rules())
      ensures match Lookup(Rules(), chain)
        case None => r == Err(ENOENT)
        case Some(k) =>
          if 0 < rulenum <= |old(chains)[k].rules| then
            r == Ok(()) && changed && chains == old(chains)[k := CountedRule(old(chains)[k], rulenum - 1, counters)]
          else r == Err(E2BIG)
      ensures r.Err? ==> chains == old(chains) && changed == old(changed)
    {
      hide *;
      Searchable();
      var found := FindLabel(chain);
      if found.None? {
        return Err(ENOENT);
      }
      var k := found.value;
      if rulenum == 0 || rulenum > |chains[k].rules| {
        return Err(E2BIG);
      }
      CountedRuleOk(chains[k], rulenum - 1, counters, original);
      MarkChanged();
      Recount(k, CountedRule(chains[k], rulenum - 1, counters));
      return Ok(());
    }

    method SetPolicyOf(chain: Name, policy: Name, counters: Option<Counters>) returns (r: Result<()>)
      requires Valid() && chain != ""
      modifies this
      ensures Valid()
      ensures Does(old(Rules()), SetPolicy(old(Rules()), chain, policy), r, Rules())
      ensures changed <==> old(changed) || r.Ok?
      ensures r.Ok? ==> var k := Lookup(old(Rules()), chain).value;
        && k < |old(chains)|
        && chains == old(chains)[k := WithPolicy(old(chains)[k], if policy == "ACCEPT" then ACCEPT else DROP, counters)]
      ensures r.Err? ==> chains == old(chains)
    {
      hide *;
      Searchable();
      var found := FindLabel(chain);
      PolicyRefused(chains, chain, policy);
      RefusingDoes(Rules());
      if found.None? {
        return Err(ENOENT);
      }
      var k := found.value;
      if chains[k].hook == 0 {
        return Err(ENOENT);
      }
      var verdict := 0;
      // The verdict is stored before the counters are looked at; an unknown policy changes nothing.
      if policy == "ACCEPT" {
        verdict := ACCEPT;
      } else if policy == "DROP" {
        verdict := DROP;
      } else {
        return Err(EINVAL);
      }
      StorePolicy(k, WithPolicy(chains[k], verdict, counters), chain, policy, counters);
      SucceedingDoes(old(Rules()), Rules());
      return Ok(());
    }

    /** Stores a chain head whose policy has been set. */
    method StorePolicy(k: nat, c: ChainHead, ghost chain: Name, ghost policy: Name, ghost counters: Option<Counters>)
      requires Valid() && k < |chains| && Lookup(Rules(), chain) == Some(k) && chains[k].hook > 0
      requires policy == "ACCEPT" || policy == "DROP"
      requires c == WithPolicy(chains[k], if policy == "ACCEPT" then ACCEPT else DROP, counters)
      modifies this
      ensures Valid() && changed && chains == old(chains)[k := c]
      ensures SetPolicy(old(Rules()), chain, policy) == Ok(Rules())
    {
      PolicyStep(chains, numChains, index, original, chain, policy, k, c, counters);
      hide TableOk, WithPolicy, Abs, SetPolicy;
      chains := chains[k := c];
      changed := true;
    }
  }
}
