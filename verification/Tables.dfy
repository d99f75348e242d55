/** The table object of the Python binding: it takes a snapshot of the kernel's table when first needed, edits
    that, and gives it up when it has been committed.  Packets may arrive at any time.  Every operation may fail
    from outside, for want of memory or of a socket, or because the kernel refuses a table; `fails` says whether
    it does. */
module Tables {
  import opened Names
  import opened Seqs
  import opened Rulesets
  import opened Editing
  import opened Cache
  import opened HandleFacts
  import opened Handles
  import opened Layout
  import opened Compiler
  import opened Walk
  import opened RoundTrip
  import opened Reread
  import opened Snapshot
  import opened Commit
  import opened Slots
  import opened Counting

  // ------------------------------------------------------------------------ readiness, seen abstractly

  /** What the compiler can lay out: verdicts fit into the targets that hold them, and no extension is
      mistaken for an error node. */
  predicate RuleFits(r: Rule) {
    match r.action
    case Verdict(_) => true
    case Extension(name, _) => name != ERROR_TARGET
    case Continue => r.targetSize == STANDARD_SIZE
    case Call(_) => r.targetSize == STANDARD_SIZE
  }

  ghost predicate Fits(rs: Ruleset) {
    && (forall k, i :: 0 <= k < |rs| && 0 <= i < |rs[k].rules| ==> RuleFits(rs[k].rules[i]))
    && (forall k :: 0 <= k < |rs| && rs[k].hook > 0 ==> rs[k].policy < 0)
  }

  lemma {:induction false} FitsIsReady(cs: seq<ChainHead>)
    ensures Fits(Abs(cs)) <==> Ready(cs) && PoliciesOk(cs)
  {
    Heads(cs);
    forall k, i | 0 <= k < |cs| && 0 <= i < |cs[k].rules|
      ensures Abs(cs)[k].rules[i] == AbsRule(cs[k].rules[i])
      ensures RuleFits(AbsRule(cs[k].rules[i])) <==> ReadyRule(cs[k].rules[i])
    {
      AbsAt(cs, k);
    }
    forall k | 0 <= k < |cs| ensures |Abs(cs)[k].rules| == |cs[k].rules| && Abs(cs)[k] == AbsChain(cs[k]) {
      AbsAt(cs, k);
    }
    if Fits(Abs(cs)) {
      forall k, i | 0 <= k < |cs| && 0 <= i < |cs[k].rules| ensures ReadyRule(cs[k].rules[i]) {
        assert RuleFits(Abs(cs)[k].rules[i]);
      }
      forall k | 0 <= k < |cs| && cs[k].hook > 0 ensures cs[k].verdict < 0 {
        assert Abs(cs)[k].hook > 0;
      }
    }
    if Ready(cs) && PoliciesOk(cs) {
      forall k, i | 0 <= k < |Abs(cs)| && 0 <= i < |Abs(cs)[k].rules| ensures RuleFits(Abs(cs)[k].rules[i]) {
        assert ReadyRule(cs[k].rules[i]);
      }
    }
  }

  /** An entry that can be compiled once it is in table `rs`. */
  predicate EntryFits(rs: Ruleset, e: Entry) {
    RuleFor(rs, e).Ok? ==> RuleFits(RuleFor(rs, e).value)
  }

  lemma {:induction false} WithRulesFits(rs: Ruleset, k: nat, rules: seq<Rule>)
    requires Fits(rs) && k < |rs| && forall i :: 0 <= i < |rules| ==> RuleFits(rules[i])
    ensures Fits(WithRules(rs, k, rules))
  {
    var rs' := WithRules(rs, k, rules);
    forall j, i | 0 <= j < |rs'| && 0 <= i < |rs'[j].rules| ensures RuleFits(rs'[j].rules[i]) {
      if j != k { assert RuleFits(rs[j].rules[i]); }
    }
  }

  lemma {:induction false} EditFits(rs: Ruleset, chain: Name, e: Entry, n: nat, mask: Bytes)
    requires Fits(rs)
    ensures EntryFits(rs, e) && Insert(rs, chain, e, n).Ok? ==> Fits(Insert(rs, chain, e, n).value)
    ensures EntryFits(rs, e) && Append(rs, chain, e).Ok? ==> Fits(Append(rs, chain, e).value)
    ensures DeleteSame(rs, chain, e, mask).Ok? ==> Fits(DeleteSame(rs, chain, e, mask).value)
  {
    if Lookup(rs, chain).Some? {
      var k := Lookup(rs, chain).value;
      var rules := rs[k].rules;
      assert forall i :: 0 <= i < |rules| ==> RuleFits(rules[i]);
      if RuleFor(rs, e).Ok? {
        var r := RuleFor(rs, e).value;
        if EntryFits(rs, e) {
          if n <= |rules| { WithRulesFits(rs, k, InsertAt(rules, n, r)); }
          WithRulesFits(rs, k, InsertAt(rules, |rules|, r));
        }
        var found := FirstSame(rules, r, mask, 0);
        if found.Some? { WithRulesFits(rs, k, RemoveAt(rules, found.value)); }
      }
    }
  }

  lemma {:induction false} ChainEditFits(rs: Ruleset, chain: Name)
    requires Fits(rs)
    ensures Create(rs, chain).Ok? ==> Fits(Create(rs, chain).value)
    ensures Delete(rs, chain).Ok? ==> Fits(Delete(rs, chain).value)
  {
    if Create(rs, chain).Ok? {
      var p := Place(rs, chain);
      var rs' := Create(rs, chain).value;
      forall k | 0 <= k < |rs'| && k != p ensures rs'[k] == rs[if k < p then k else k - 1] {
      }
      assert rs'[p].rules == [];
    }
    if Delete(rs, chain).Ok? {
      var d := Lookup(rs, chain).value;
      var rs' := Delete(rs, chain).value;
      forall k | 0 <= k < |rs'| ensures rs'[k] == rs[if k < d then k else k + 1] {
      }
    }
  }

  lemma {:induction false} FlushFits(rs: Ruleset, chain: Name)
    requires Fits(rs)
    ensures Flush(rs, chain).Ok? ==> Fits(Flush(rs, chain).value)
  {
    if Lookup(rs, chain).Some? { WithRulesFits(rs, Lookup(rs, chain).value, []); }
  }

  // --------------------------------------------------------------------------------- what is in force

  /** The kernel's table, its counters, and the chains it stands for. */
  ghost predicate InForceOk(image: seq<ChainHead>, blob: Blob, counts: seq<Counters>) {
    Compiled(image, blob) && Fits(Abs(image)) && Quiet(image, counts)
  }

  lemma {:induction false} QuietSum(cs: seq<ChainHead>, a: seq<Counters>, b: seq<Counters>)
    requires Quiet(cs, a) && Quiet(cs, b)
    ensures Quiet(cs, PlusAll(a, b))
  {
  }

  class Table {
    const kernel: Kernel
    var handle: Handle?
    /** The chains from which the table in force was compiled. */
    ghost var image: seq<ChainHead>
    /** What has passed each entry since the snapshot was taken. */
    ghost var grown: seq<Counters>

    ghost predicate HandleOk()
      reads this, kernel, handle
    {
      handle != null ==>
        && handle.Valid() && Fits(handle.Rules())
        && |grown| == |handle.original| && kernel.counts == PlusAll(handle.original, grown)
        && (!handle.changed ==> handle.Rules() == Abs(image))
    }

    /** Something has been edited since the snapshot was taken. */
    ghost predicate Changed()
      reads this, handle
    {
      handle != null && handle.changed
    }

    ghost predicate Valid()
      reads this, kernel, handle
    {
      InForceOk(image, kernel.blob, kernel.counts) && HandleOk()
    }

    /** The ruleset that the kernel goes by. */
    ghost function InForce(): Ruleset
      reads this
    {
      Abs(image)
    }

    /** The ruleset as edited so far. */
    ghost function Rules(): Ruleset
      reads this, handle
    {
      if handle != null then handle.Rules() else Abs(image)
    }

    /** Where the counters of the table as edited so far are to come from. */
    ghost function Slots(): seq<ChainSlots>
      reads this, handle, kernel
    {
      if handle != null then handle.Slots() else ReadSlots(image, kernel.counts)
    }

    constructor (kernel: Kernel, ghost image: seq<ChainHead>)
      requires InForceOk(image, kernel.blob, kernel.counts)
      ensures Valid() && handle == null && this.kernel == kernel && Rules() == InForce() == Abs(image)
    {
      this.kernel := kernel;
      this.handle := null;
      this.image, this.grown := image, [];
    }

    /** The ruleset is well-formed at all times. */
    lemma {:induction false} RulesWellFormed()
      requires Valid()
      ensures WellFormed(Rules()) && WellFormed(InForce()) && Fits(Rules())
    {
    }

    lemma {:induction false} ReadyToCommit()
      requires Valid() && handle != null
      ensures Ready(handle.chains) && PoliciesOk(handle.chains)
    {
      FitsIsReady(handle.chains);
      hide InForceOk, Fits, Ready, PoliciesOk;
    }

    lemma {:induction false} UnchangedIsInForce()
      requires Valid()
      ensures !Changed() ==> Rules() == InForce()
    {
    }

    /** Packets arrive. */
    method Traffic(passed: nat -> Counters)
      requires Valid()
      modifies kernel, this`grown
      ensures Valid() && Rules() == old(Rules()) && InForce() == old(InForce())
      ensures kernel.counts == PlusAll(old(kernel.counts), Growth(kernel.blob, passed, |old(kernel.counts)|))
    {
      TrafficKeeps(image, kernel.blob, kernel.counts, passed);
      ghost var growth := Growth(kernel.blob, passed, |kernel.counts|);
      hide Compiled, Fits, Quiet, Growth;
      if handle != null {
        GrowthsAdd(handle.original, grown, growth);
        grown := PlusAll(grown, growth);
      }
      kernel.Traffic(passed);
    }

    /** Takes a snapshot of the kernel's table unless there is one. */
    method MaybeCreateHandle(fails: bool) returns (ok: bool)
      requires Valid()
      modifies this`handle, this`grown
      ensures Valid() && image == old(image) && Rules() == old(Rules()) && Slots() == old(Slots())
      ensures ok <==> old(handle) != null || !fails
      ensures ok ==> handle != null
      ensures Changed() <==> old(Changed())
      ensures ok && old(handle) == null ==> fresh(handle)
      ensures !ok || old(handle) != null ==> handle == old(handle)
    {
      if handle != null {
        return true;
      }
      if fails {
        return false;
      }
      hide Compiled, Fits, Quiet;
      handle := ReadKernel(kernel, image);
      grown := Zero(|kernel.counts|);
      GrowthsAdd(kernel.counts, grown, grown);
      return true;
    }

    /** Whether the table has a chain called `name`; the target of a jump is made only if it has. */
    method IsChain(name: Name, fails: bool) returns (found: bool)
      requires Valid() && name != ""
      modifies this`handle, this`grown
      ensures Valid() && image == old(image) && Rules() == old(Rules()) && Slots() == old(Slots())
      ensures handle == old(handle) || fresh(handle)
      ensures Changed() <==> old(Changed())
      ensures !fails ==> handle != null
      ensures found <==> !fails && Lookup(Rules(), name).Some?
    {
      hide Compiled, Fits, Quiet;
      var ok := MaybeCreateHandle(fails);
      if !ok || fails {
        return false;
      }
      var at := handle.FindLabel(name);
      found := at.Some?;
    }

    method CreateChain(chain: Name, fails: bool) returns (r: Result<()>)
      requires Valid() && chain != ""
      modifies this`handle, this`grown, handle
      ensures Valid() && image == old(image)
      ensures handle == old(handle) || fresh(handle)
      ensures Changed() <==> old(Changed()) || r.Ok?
      ensures !fails ==> handle != null
      ensures if fails then r == Err(EOUTSIDE) && Rules() == old(Rules())
              else Does(old(Rules()), Create(old(Rules()), chain), r, Rules())
      ensures r.Err? ==> Slots() == old(Slots())
      ensures r.Ok? ==> Slots() == SlotsMade(old(Slots()), Place(old(Rules()), chain))
    {
      hide Compiled, Fits, Quiet;
      var ok := MaybeCreateHandle(fails);
      if !ok || fails {
        return Err(EOUTSIDE);
      }
      ChainEditFits(Rules(), chain);
      ghost var before := handle.chains;
      r := handle.CreateChain(chain);
      if r.Ok? {
        SlotsCreated(before, Place(Abs(before), chain), NewChain(chain, 0));
      }
    }

    method DeleteChain(chain: Name, fails: bool) returns (r: Result<()>)
      requires Valid() && chain != ""
      modifies this`handle, this`grown, handle
      ensures Valid() && image == old(image)
      ensures handle == old(handle) || fresh(handle)
      ensures Changed() <==> old(Changed()) || r.Ok?
      ensures !fails ==> handle != null
      ensures if fails then r == Err(EOUTSIDE) && Rules() == old(Rules())
              else Does(old(Rules()), Delete(old(Rules()), chain), r, Rules())
      ensures r.Err? ==> Slots() == old(Slots())
      ensures r.Ok? ==> Slots() == SlotsGone(old(Slots()), Lookup(old(Rules()), chain).value)
    {
      hide Compiled, Fits, Quiet;
      var ok := MaybeCreateHandle(fails);
      if !ok || fails {
        return Err(EOUTSIDE);
      }
      ChainEditFits(Rules(), chain);
      ghost var before := handle.chains;
      r := handle.DeleteChain(chain);
      if r.Ok? {
        SlotsDeleted(before, Lookup(Abs(before), chain).value);
      }
    }

    method FlushEntries(chain: Name, fails: bool) returns (r: Result<()>)
      requires Valid() && chain != ""
      modifies this`handle, this`grown, handle
      ensures Valid() && image == old(image)
      ensures handle == old(handle) || fresh(handle)
      ensures Changed() <==> old(Changed()) || r.Ok?
      ensures !fails ==> handle != null
      ensures if fails then r == Err(EOUTSIDE) && Rules() == old(Rules())
              else Does(old(Rules()), Flush(old(Rules()), chain), r, Rules())
      ensures r.Err? ==> Slots() == old(Slots())
      ensures r.Ok? ==> Slots() == SlotsCleared(old(Slots()), Lookup(old(Rules()), chain).value)
    {
      hide Compiled, Fits, Quiet;
      var ok := MaybeCreateHandle(fails);
      if !ok || fails {
        return Err(EOUTSIDE);
      }
      FlushFits(Rules(), chain);
      r := handle.FlushEntries(chain);
    }

    method InsertEntry(position: nat, e: Entry, chain: Name, fails: bool) returns (r: Result<()>)
      requires Valid() && chain != ""
      requires EntryFits(Rules(), e)
      modifies this`handle, this`grown, handle
      ensures Valid() && image == old(image)
      ensures handle == old(handle) || fresh(handle)
      ensures Changed() <==> old(Changed()) || r.Ok?
      ensures !fails ==> handle != null
      ensures if fails then r == Err(EOUTSIDE) && Rules() == old(Rules())
              else Does(old(Rules()), Insert(old(Rules()), chain, e, position), r, Rules())
      ensures r.Err? ==> Slots() == old(Slots())
      ensures r.Ok? ==>
        Slots() == SlotPut(old(Slots()), Lookup(old(Rules()), chain).value, position, Slot(SetTo, e.counters))
    {
      hide Compiled, Fits, Quiet;
      var ok := MaybeCreateHandle(fails);
      if !ok || fails {
        return Err(EOUTSIDE);
      }
      EditFits(Rules(), chain, e, position, DELETE_MASK);
      r := handle.InsertEntry(chain, e, position);
    }

    method AppendEntry(e: Entry, chain: Name, fails: bool) returns (r: Result<()>)
      requires Valid() && chain != ""
      requires EntryFits(Rules(), e)
      modifies this`handle, this`grown, handle
      ensures Valid() && image == old(image)
      ensures handle == old(handle) || fresh(handle)
      ensures Changed() <==> old(Changed()) || r.Ok?
      ensures !fails ==> handle != null
      ensures if fails then r == Err(EOUTSIDE) && Rules() == old(Rules())
              else Does(old(Rules()), Append(old(Rules()), chain, e), r, Rules())
      ensures r.Err? ==> Slots() == old(Slots())
      ensures r.Ok? ==> var k := Lookup(old(Rules()), chain).value;
        k < |old(Slots())| && Slots() == SlotPut(old(Slots()), k, |old(Slots())[k].rules|, Slot(SetTo, e.counters))
    {
      hide Compiled, Fits, Quiet;
      var ok := MaybeCreateHandle(fails);
      if !ok || fails {
        return Err(EOUTSIDE);
      }
      EditFits(Rules(), chain, e, 0, DELETE_MASK);
      r := handle.AppendEntry(chain, e);
    }

    method DeleteEntry(e: Entry, chain: Name, fails: bool) returns (r: Result<()>)
      requires Valid() && chain != ""
      requires EntrySize(e) <= |DELETE_MASK|
      modifies this`handle, this`grown, handle
      ensures Valid() && image == old(image)
      ensures handle == old(handle) || fresh(handle)
      ensures Changed() <==> old(Changed()) || r.Ok? || (!fails && TouchedBy(old(Rules()), chain, e))
      ensures !fails ==> handle != null
      ensures if fails then r == Err(EOUTSIDE) && Rules() == old(Rules())
              else Does(old(Rules()), DeleteSame(old(Rules()), chain, e, DELETE_MASK), r, Rules())
      ensures r.Err? ==> Slots() == old(Slots())
      ensures r.Ok? ==> var rs, k := old(Rules()), Lookup(old(Rules()), chain).value;
        && k < |rs| && RuleFor(rs, e).Ok?
        && var n := FirstSame(rs[k].rules, RuleFor(rs, e).value, DELETE_MASK, 0);
           n.Some? && Slots() == SlotTaken(old(Slots()), k, n.value)
    {
      hide Compiled, Fits, Quiet;
      var ok := MaybeCreateHandle(fails);
      if !ok || fails {
        return Err(EOUTSIDE);
      }
      EditFits(Rules(), chain, e, 0, DELETE_MASK);
      r := handle.DeleteEntry(chain, e, DELETE_MASK);
    }

    /** Commits the snapshot, if there is one, and gives it up; when the kernel refuses it, it is kept with all its
        edits.  `before` and `after` pass the entries of the old table up to the swap, and of the new one from then
        on. */
    method Commit(before: nat -> Counters, after: nat -> Counters, fails: bool) returns (ok: bool)
      requires Valid()
      modifies this, kernel, handle
      ensures Valid() && Rules() == old(Rules())
      ensures ok <==> old(handle) != null && (!old(Changed()) || !fails)
      ensures InForce() == if ok then old(Rules()) else old(InForce())
      ensures if ok then handle == null else handle == old(handle)
      ensures ok && old(Changed()) ==>
        AllComeOut(old(Slots()), image, old(kernel.counts),
                   Growth(old(kernel.blob), before, |old(kernel.counts)|), after, kernel.counts)
      ensures !ok || !old(Changed()) ==>
        kernel.counts == if old(handle) == null then old(kernel.counts) else
          PlusAll(old(kernel.counts), Growth(old(kernel.blob), before, |old(kernel.counts)|))
    {
      if handle == null {
        return false;
      }
      ReadyToCommit();
      TrafficKeeps(image, kernel.blob, kernel.counts, before);
      ghost var growth := Growth(kernel.blob, before, |grown|);
      hide Compiled, Fits, Quiet, Ready, PoliciesOk, Growth, PlusAll, CountersRight, SameTable;
      ok := CommitTable(handle, kernel, grown, before, after, fails);
      if !ok {
        GrowthsAdd(handle.original, grown, growth);
        grown := PlusAll(grown, growth);
        return;
      }
      if handle.changed {
        SameTableSlots(old(handle.chains), handle.chains);
        SlotsFollow(handle, grown, growth, after, kernel.counts);
        image := handle.chains;
      }
      handle := null;
    }
  }

  /** What the counters of a handle's table come out as. */
  lemma {:induction false} SlotsFollow(h: Handle, grown: seq<Counters>, growth: seq<Counters>, after: nat -> Counters,
                                       counts: seq<Counters>)
    requires h.Valid() && |grown| == |growth| == |h.original|
    requires CountersRight(h.chains, h.original, PlusAll(grown, growth), after, counts)
    ensures AllComeOut(SlotsOf(h.chains), h.chains, PlusAll(h.original, grown), growth, after, counts)
  {
    assert Tracked(h.chains, h.original);
    hide *;
    CountersFollow(h.chains, h.original, grown, growth, after, counts);
  }

  lemma {:induction false} TrafficKeeps(image: seq<ChainHead>, b: Blob, counts: seq<Counters>, passed: nat -> Counters)
    requires InForceOk(image, b, counts)
    ensures InForceOk(image, b, PlusAll(counts, Growth(b, passed, |counts|)))
  {
    GrowthIsQuiet(image, b, passed);
    hide Compiled;
    QuietSum(image, counts, Growth(b, passed, |counts|));
  }

  lemma {:induction false} KernelReadable(image: seq<ChainHead>, b: Blob, counts: seq<Counters>)
    requires InForceOk(image, b, counts)
    ensures Walked(b, |counts|).Some?
  {
    WalkedToEnd(image, b);
  }

  lemma {:induction false} CopyIsImage(image: seq<ChainHead>, b: Blob, counts: seq<Counters>, b': Blob)
    requires InForceOk(image, b, counts) && CountedAs(b, counts, b')
    ensures Compiled(Recounted(image, counts), b') && PoliciesOk(Recounted(image, counts))
    ensures Abs(Recounted(image, counts)) == Abs(image)
    ensures CountsUpTo(Recounted(image, counts), |Recounted(image, counts)|) + [ZERO_COUNTERS] == counts
  {
    FitsIsReady(image);
    CountingKeepsMeaning(image, b, counts, b');
    RecountedAll(image, counts);
  }

  lemma {:induction false} ReadsSlots(image: seq<ChainHead>, b: Blob, counts: seq<Counters>)
    requires InForceOk(image, b, counts)
    ensures SlotsOf(Final(Recounted(image, counts))) == ReadSlots(image, counts)
  {
    RecountedPlaced(image, counts);
    hide Placed, SlotsOf, ReadSlots, Final, Recounted;
    ReadKeeps(image, counts);
  }

  /** Reads the table in force: the same ruleset, and the counters as they stand. */
  method ReadKernel(kernel: Kernel, ghost image: seq<ChainHead>) returns (h: Handle)
    requires InForceOk(image, kernel.blob, kernel.counts)
    ensures fresh(h) && h.Valid() && !h.changed && h.Rules() == Abs(image)
    ensures Fits(h.Rules()) && h.original == kernel.counts && h.Slots() == ReadSlots(image, kernel.counts)
  {
    KernelReadable(image, kernel.blob, kernel.counts);
    var b := CopyCounted(kernel.blob, kernel.counts);
    CopyIsImage(image, kernel.blob, kernel.counts, b);
    hide Compiled, Quiet, Fits, PoliciesOk, Recounted, Ready;
    h := ReadTable(b, Recounted(image, kernel.counts));
    FitsIsReady(h.chains);
    ReadsSlots(image, kernel.blob, kernel.counts);
  }
}
