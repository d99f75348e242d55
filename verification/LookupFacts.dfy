/** Facts about the sorted chain list that the indexed operations rest on. */
module LookupFacts {
  import opened Names
  import opened Seqs
  import opened Rulesets
  import opened Editing
  import opened Cache
  import opened ChainIndex

  /** Where the search through the user chains starts: `first` is the first user chain, `slot` the slot
      found in the index. */
  lemma {:induction false} NothingBeforeStart(rs: Ruleset, index: seq<Name>, name: Name, slot: nat, start: nat,
                                              first: nat)
    requires NamesDiffer(rs) && Ordered(rs) && IndexOk(rs, index) && name != ""
    requires IsSlot(index, name, slot) && index[slot] != "" && Lookup(rs, index[slot]) == Some(start)
    requires first <= |rs| && forall j :: 0 <= j < |rs| ==> (rs[j].hook == 0 <==> j >= first)
    ensures first <= start
    ensures forall j :: first <= j < start ==> Less(rs[j].name, name)
    ensures slot == 0 ==> start == first
  {
    var at :| 0 <= at < |rs| && rs[at].name == index[slot] && rs[at].hook == 0;
    assert at == start;
    if slot == 0 {
      assert !Less(rs[first].name, index[0]);
    } else {
      forall j | first <= j < start ensures Less(rs[j].name, name) {
        assert Less(rs[j].name, index[slot]);
        Trichotomy(name, index[slot]);
        if name != index[slot] { Transitive(rs[j].name, index[slot], name); }
      }
    }
  }

  /** Once a chain beyond `name` is met in the sorted part, `name` is not further on. */
  lemma {:induction false} NothingAfter(rs: Ruleset, name: Name, k: nat)
    requires NamesDiffer(rs) && Ordered(rs) && k < |rs| && rs[k].hook == 0 && Less(name, rs[k].name)
    ensures forall j :: k <= j < |rs| ==> Less(name, rs[j].name)
  {
    forall j | k < j < |rs| ensures Less(name, rs[j].name) {
      Transitive(name, rs[k].name, rs[j].name);
    }
  }

  lemma {:induction false} NotFound(rs: Ruleset, name: Name, pos: nat)
    requires pos <= |rs| && forall j :: 0 <= j < pos ==> rs[j].name != name
    requires pos == |rs| || forall j :: pos <= j < |rs| ==> Less(name, rs[j].name)
    ensures Lookup(rs, name) == None
  {
    Trichotomy(name, name);
  }

  /** Putting in a chain leaves a good index good, given that slot 0 is moved when the new chain is the
      least. */
  lemma {:induction false} IndexAfterCreate(rs: Ruleset, index: seq<Name>, name: Name, index': seq<Name>)
    requires NamesDiffer(rs) && IndexOk(rs, index) && name != "" && Lookup(rs, name).None?
    requires if |index| > 0 && index[0] != "" && Less(name, index[0]) then index' == index[0 := name]
             else index' == index
    ensures IndexOk(InsertAt(rs, Place(rs, name), Chain(name, 0, RETURN, [])), index')
  {
    var p, c := Place(rs, name), Chain(name, 0, RETURN, []);
    var rs' := InsertAt(rs, p, c);
    if index != [""] {
      forall k | 0 <= k < |index| ensures IsUser(rs', index[k]) {
        InsertKeepsUsers(rs, p, c, index[k]);
      }
      assert rs'[p].name == name && rs'[p].hook == 0;
      assert forall k :: 0 <= k < p ==> rs'[k] == rs[k];
      assert forall k :: p < k < |rs'| ==> rs'[k] == rs[k - 1];
      if |index| > 0 {
        var j0 :| 0 <= j0 < |rs| && rs[j0].name == index[0];
        Trichotomy(name, index[0]);
        if index' != index {
          BelowRest(index, name, 0);
          LeastAfterCreate(rs, p, c, index[0]);
        }
      }
    }
  }

  lemma {:induction false} LeastAfterCreate(rs: Ruleset, p: nat, c: Chain, least: Name)
    requires p <= |rs| && LeastUser(rs, least) && Less(c.name, least)
    ensures LeastUser(InsertAt(rs, p, c), c.name)
  {
    var rs' := InsertAt(rs, p, c);
    forall j | 0 <= j < |rs'| && rs'[j].hook == 0 ensures !Less(rs'[j].name, c.name) {
      Trichotomy(c.name, c.name);
      if j != p {
        var j' := if j < p then j else j - 1;
        assert rs'[j] == rs[j'];
        if Less(rs[j'].name, c.name) { Transitive(rs[j'].name, c.name, least); }
      }
    }
  }

  /** An index without the deleted chain stays good. */
  lemma {:induction false} IndexAfterDelete(rs: Ruleset, index: seq<Name>, d: nat)
    requires IndexOk(rs, index) && d < |rs| && rs[d].name !in index
    ensures IndexOk(RemoveAt(rs, d), index)
  {
    var rs' := RemoveAt(rs, d);
    if index != [""] {
      forall k | 0 <= k < |index| ensures IsUser(rs', index[k]) {
        assert index[k] in index;
        RemoveKeepsUsers(rs, d, index[k]);
      }
      assert forall k :: 0 <= k < d ==> rs'[k] == rs[k];
      assert forall k :: d <= k < |rs'| ==> rs'[k] == rs[k + 1];
    }
  }

  /** When the deleted chain is in the index, the search for it finds just its slot. */
  lemma {:induction false} SlotOfMember(index: seq<Name>, name: Name, slot: nat)
    requires Sorted(index) && IsSlot(index, name, slot) && name in index
    ensures index[slot] == name
  {
    var m :| 0 <= m < |index| && index[m] == name;
    Trichotomy(name, name);
    assert m <= slot;
    Trichotomy(index[m], index[slot]);
  }

  /** The slot of a deleted chain can be moved to the next chain if that chain falls into the same slot. */
  lemma {:induction false} IndexAfterShift(rs: Ruleset, index: seq<Name>, d: nat, slot: nat)
    requires NamesDiffer(rs) && Ordered(rs) && IndexOk(rs, index)
    requires d < |rs| && rs[d].hook == 0 && slot < |index| && index[slot] == rs[d].name
    requires IsSlot(index, if d + 1 < |rs| then rs[d + 1].name else "", slot)
    ensures IndexOk(RemoveAt(rs, d), index[slot := if d + 1 < |rs| then rs[d + 1].name else ""])
  {
    var rs' := RemoveAt(rs, d);
    assert forall k :: 0 <= k < d ==> rs'[k] == rs[k];
    assert forall k :: d <= k < |rs'| ==> rs'[k] == rs[k + 1];
    if d + 1 == |rs| {
      Trichotomy("", rs[d].name);
      assert slot == 0;
      var last := index[|index| - 1];
      assert |index| == 1 || Less(index[0], last);
      LastIsGreatest(rs, index, d);
      assert index[0 := ""] == [""];
    } else {
      var next := rs[d + 1].name;
      assert Less(rs[d].name, next);
      var index' := index[slot := next];
      SortedAfterShift(index, slot, next);
      forall k | 0 <= k < |index'| ensures IsUser(rs', index'[k]) {
        if k == slot {
          assert rs'[d].name == next;
        } else {
          Trichotomy(index[k], index[slot]);
          Trichotomy(index[slot], index[k]);
          RemoveKeepsUsers(rs, d, index[k]);
        }
      }
      if slot == 0 {
        forall j | 0 <= j < |rs'| && rs'[j].hook == 0 ensures !Less(rs'[j].name, next) {
          Trichotomy(next, rs'[j].name);
          assert rs'[j] == rs[if j < d then j else j + 1];
        }
      }
    }
  }

  /** Nothing in the index is beyond the last chain. */
  lemma {:induction false} LastIsGreatest(rs: Ruleset, index: seq<Name>, d: nat)
    requires NamesDiffer(rs) && Ordered(rs) && d + 1 == |rs| && rs[d].hook == 0
    requires Sorted(index) && forall k :: 0 <= k < |index| ==> IsUser(rs, index[k])
    ensures forall k :: 0 <= k < |index| ==> !Less(rs[d].name, index[k])
  {
    forall k | 0 <= k < |index| ensures !Less(rs[d].name, index[k]) {
      var j :| 0 <= j < |rs| && rs[j].name == index[k] && rs[j].hook == 0;
      Trichotomy(rs[d].name, rs[j].name);
    }
  }

  lemma {:induction false} SortedAfterShift(index: seq<Name>, slot: nat, next: Name)
    requires Sorted(index) && IsSlot(index, next, slot) && Less(index[slot], next)
    ensures Sorted(index[slot := next])
  {
    var index' := index[slot := next];
    forall i, j | 0 <= i < j < |index'| ensures Less(index'[i], index'[j]) {
      if j == slot { Transitive(index[i], index[slot], next); }
    }
  }

  /** A rebuilt index: every `BUCKET_LEN`-th user chain. */
  ghost predicate IsBuilt(rs: Ruleset, first: nat, index: seq<Name>) {
    forall k :: 0 <= k < |index| ==>
      first + BUCKET_LEN * k < |rs| && index[k] == rs[first + BUCKET_LEN * k].name
  }

  lemma {:induction false} BuiltIsOk(rs: Ruleset, first: nat, index: seq<Name>)
    requires NamesDiffer(rs) && Ordered(rs)
    requires first <= |rs| && forall j :: 0 <= j < |rs| ==> (rs[j].hook == 0 <==> j >= first)
    requires IsBuilt(rs, first, index)
    ensures IndexOk(rs, index)
  {
    forall i, j | 0 <= i < j < |index| ensures Less(index[i], index[j]) {
      assert rs[first + BUCKET_LEN * i].hook == 0;
    }
    forall k | 0 <= k < |index| ensures IsUser(rs, index[k]) {
      assert rs[first + BUCKET_LEN * k].hook == 0;
    }
    if |index| > 0 {
      forall j | 0 <= j < |rs| && rs[j].hook == 0 ensures !Less(rs[j].name, index[0]) {
        Trichotomy(rs[j].name, rs[first].name);
      }
    }
  }
}
