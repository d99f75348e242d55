/** Every editing operation keeps a ruleset well-formed. */
module Editing {
  import opened Names
  import opened Seqs
  import opened Rulesets

  /** Rulesets that differ only in rules and policies have the same chains. */
  ghost predicate SameChains(rs: Ruleset, rs': Ruleset) {
    |rs| == |rs'| && forall k :: 0 <= k < |rs| ==> rs[k].name == rs'[k].name && rs[k].hook == rs'[k].hook
  }

  lemma {:induction false} SameChainsSameUsers(rs: Ruleset, rs': Ruleset, name: Name)
    requires SameChains(rs, rs')
    ensures IsUser(rs, name) == IsUser(rs', name)
  {
    if IsUser(rs, name) {
      var k :| 0 <= k < |rs| && rs[k].name == name && rs[k].hook == 0;
      assert rs'[k].name == name;
    }
    if IsUser(rs', name) {
      var k :| 0 <= k < |rs'| && rs'[k].name == name && rs'[k].hook == 0;
      assert rs[k].name == name;
    }
  }

  lemma {:induction false} RuleForOk(rs: Ruleset, e: Entry)
    requires NamesDiffer(rs) && RuleFor(rs, e).Ok?
    ensures RuleOk(rs, RuleFor(rs, e).value)
  {
  }

  /** Changing the rules of one chain into well-formed ones. */
  lemma {:induction false} WithRulesOk(rs: Ruleset, k: nat, rules: seq<Rule>)
    requires WellFormed(rs) && k < |rs|
    requires forall i :: 0 <= i < |rules| ==> RuleOk(rs, rules[i])
    ensures WellFormed(WithRules(rs, k, rules))
  {
    var rs' := WithRules(rs, k, rules);
    forall j, i | 0 <= j < |rs'| && 0 <= i < |rs'[j].rules| ensures RuleOk(rs', rs'[j].rules[i]) {
      var r := rs'[j].rules[i];
      assert RuleOk(rs, r) by { if j != k { assert r == rs[j].rules[i]; } }
      if r.action.Call? { SameChainsSameUsers(rs, rs', r.action.chain); }
    }
  }

  lemma {:induction false} PutKeepsWellFormed(rs: Ruleset, chain: Name, e: Entry, n: nat)
    requires WellFormed(rs)
    ensures Insert(rs, chain, e, n).Ok? ==> WellFormed(Insert(rs, chain, e, n).value)
    ensures Replace(rs, chain, e, n).Ok? ==> WellFormed(Replace(rs, chain, e, n).value)
    ensures Append(rs, chain, e).Ok? ==> WellFormed(Append(rs, chain, e).value)
  {
    if Lookup(rs, chain).Some? && RuleFor(rs, e).Ok? {
      var k, r := Lookup(rs, chain).value, RuleFor(rs, e).value;
      var rules := rs[k].rules;
      assert forall i :: 0 <= i < |rules| ==> RuleOk(rs, rules[i]);
      RuleForOk(rs, e);
      hide WellFormed, RuleOk, RuleFor, Lookup;
      if n <= |rules| { WithRulesOk(rs, k, InsertAt(rules, n, r)); }
      WithRulesOk(rs, k, InsertAt(rules, |rules|, r));
      if n < |rules| { WithRulesOk(rs, k, rules[n := r]); }
    }
  }

  lemma {:induction false} TakeKeepsWellFormed(rs: Ruleset, chain: Name, e: Entry, n: nat, mask: Bytes)
    requires WellFormed(rs)
    ensures DeleteNum(rs, chain, n).Ok? ==> WellFormed(DeleteNum(rs, chain, n).value)
    ensures DeleteSame(rs, chain, e, mask).Ok? ==> WellFormed(DeleteSame(rs, chain, e, mask).value)
    ensures Flush(rs, chain).Ok? ==> WellFormed(Flush(rs, chain).value)
  {
    if Lookup(rs, chain).Some? {
      var k := Lookup(rs, chain).value;
      var rules := rs[k].rules;
      assert forall i :: 0 <= i < |rules| ==> RuleOk(rs, rules[i]);
      hide WellFormed, RuleOk, RuleFor, Lookup, Same;
      WithRulesOk(rs, k, []);
      if RuleFor(rs, e).Ok? {
        var found := FirstSame(rules, RuleFor(rs, e).value, mask, 0);
        if found.Some? { WithRulesOk(rs, k, RemoveAt(rules, found.value)); }
      }
      if n < |rules| { WithRulesOk(rs, k, RemoveAt(rules, n)); }
    }
  }

  lemma {:induction false} EditKeepsWellFormed(rs: Ruleset, chain: Name, e: Entry, n: nat, mask: Bytes)
    requires WellFormed(rs)
    ensures Insert(rs, chain, e, n).Ok? ==> WellFormed(Insert(rs, chain, e, n).value)
    ensures Replace(rs, chain, e, n).Ok? ==> WellFormed(Replace(rs, chain, e, n).value)
    ensures Append(rs, chain, e).Ok? ==> WellFormed(Append(rs, chain, e).value)
    ensures DeleteNum(rs, chain, n).Ok? ==> WellFormed(DeleteNum(rs, chain, n).value)
    ensures DeleteSame(rs, chain, e, mask).Ok? ==> WellFormed(DeleteSame(rs, chain, e, mask).value)
    ensures Flush(rs, chain).Ok? ==> WellFormed(Flush(rs, chain).value)
  {
    PutKeepsWellFormed(rs, chain, e, n);
    TakeKeepsWellFormed(rs, chain, e, n, mask);
    hide *;
  }

  lemma {:induction false} SetPolicyKeepsWellFormed(rs: Ruleset, chain: Name, policy: Name)
    requires WellFormed(rs) && SetPolicy(rs, chain, policy).Ok?
    ensures WellFormed(SetPolicy(rs, chain, policy).value)
  {
    var rs' := SetPolicy(rs, chain, policy).value;
    hide RuleOk, IsUser, Less;
    forall j, i | 0 <= j < |rs'| && 0 <= i < |rs'[j].rules| ensures RuleOk(rs', rs'[j].rules[i]) {
      var r := rs'[j].rules[i];
      assert r == rs[j].rules[i] && RuleOk(rs, r);
      if r.action.Call? {
        UserOfCall(rs, r);
        SameChainsSameUsers(rs, rs', r.action.chain);
      }
      RuleOkCarries(rs, rs', r);
    }
  }

  lemma {:induction false} UserOfCall(rs: Ruleset, r: Rule)
    requires RuleOk(rs, r) && r.action.Call?
    ensures IsUser(rs, r.action.chain)
  {
  }

  /** A rule stays well-formed when the chain that it calls, if any, is still there. */
  lemma {:induction false} RuleOkCarries(rs: Ruleset, rs': Ruleset, r: Rule)
    requires RuleOk(rs, r) && (r.action.Call? ==> IsUser(rs', r.action.chain))
    ensures RuleOk(rs', r)
  {
  }

  /** Where chain `k` stands after a chain was put in at place `p`. */
  function Shifted(k: nat, p: nat): nat { if k < p then k else k + 1 }

  lemma {:induction false} InsertKeepsUsers(rs: Ruleset, p: nat, c: Chain, name: Name)
    requires p <= |rs| && IsUser(rs, name)
    ensures IsUser(InsertAt(rs, p, c), name)
  {
    var k :| 0 <= k < |rs| && rs[k].name == name && rs[k].hook == 0;
    assert InsertAt(rs, p, c)[Shifted(k, p)] == rs[k];
  }

  lemma {:induction false} RemoveKeepsUsers(rs: Ruleset, d: nat, name: Name)
    requires d < |rs| && IsUser(rs, name) && rs[d].name != name
    ensures IsUser(RemoveAt(rs, d), name)
  {
    var k :| 0 <= k < |rs| && rs[k].name == name && rs[k].hook == 0;
    assert RemoveAt(rs, d)[if k < d then k else k - 1] == rs[k];
  }

  lemma {:induction false} CreateKeepsRulesOk(rs: Ruleset, p: nat, c: Chain)
    requires RulesOk(rs) && p <= |rs| && c.rules == []
    ensures RulesOk(InsertAt(rs, p, c))
  {
    var rs' := InsertAt(rs, p, c);
    forall j, i | 0 <= j < |rs'| && 0 <= i < |rs'[j].rules| ensures RuleOk(rs', rs'[j].rules[i]) {
      var r := rs'[j].rules[i];
      var j' := if j < p then j else j - 1;
      assert r == rs[j'].rules[i] && RuleOk(rs, rs[j'].rules[i]);
      if r.action.Call? { InsertKeepsUsers(rs, p, c, r.action.chain); }
      RuleOkCarries(rs, rs', r);
    }
  }

  lemma {:induction false} CreateKeepsNamesDiffer(rs: Ruleset, p: nat, c: Chain)
    requires NamesDiffer(rs) && p <= |rs| && c.name != "" && Lookup(rs, c.name).None?
    ensures NamesDiffer(InsertAt(rs, p, c))
  {
    var rs' := InsertAt(rs, p, c);
    assert forall k :: 0 <= k < p ==> rs'[k] == rs[k];
    assert forall k :: p < k < |rs'| ==> rs'[k] == rs[k - 1];
  }

  /** The place of insertion is determined by its two neighbours. */
  lemma {:induction false} PlaceIsUnique(rs: Ruleset, name: Name, p: nat)
    requires p <= |rs|
    requires p < |rs| ==> rs[p].hook == 0 && !Less(rs[p].name, name)
    requires forall k :: 0 <= k < p && rs[k].hook == 0 ==> Less(rs[k].name, name)
    ensures p == Place(rs, name)
  {
  }

  lemma {:induction false} CreateKeepsHooks(rs: Ruleset, p: nat, c: Chain)
    requires HooksOk(rs) && p <= |rs| && c.hook == 0 && c.policy == RETURN
    ensures HooksOk(InsertAt(rs, p, c))
  {
    var rs' := InsertAt(rs, p, c);
    assert forall k :: 0 <= k < |rs'| ==> rs'[k] == if k < p then rs[k] else if k == p then c else rs[k - 1];
  }

  lemma {:induction false} CreateKeepsWellFormed(rs: Ruleset, name: Name)
    requires WellFormed(rs) && name != "" && Create(rs, name).Ok?
    ensures WellFormed(Create(rs, name).value)
  {
    var p, c := Place(rs, name), Chain(name, 0, RETURN, []);
    assert Create(rs, name).value == InsertAt(rs, p, c);
    CreateKeepsNamesDiffer(rs, p, c);
    CreateKeepsOrder(rs, name);
    CreateKeepsRulesOk(rs, p, c);
    CreateKeepsHooks(rs, p, c);
    hide NamesDiffer, Ordered, RulesOk, HooksOk, Create, Place;
  }

  lemma {:induction false} AboveThePlace(rs: Ruleset, name: Name)
    requires Ordered(rs) && forall k :: 0 <= k < |rs| ==> rs[k].name != name
    ensures forall k :: Place(rs, name) <= k < |rs| ==> rs[k].hook == 0 && Less(name, rs[k].name)
  {
    var p := Place(rs, name);
    forall k | p <= k < |rs| ensures rs[k].hook == 0 && Less(name, rs[k].name) {
      assert rs[p].hook == 0 && !Less(rs[p].name, name) && rs[p].name != name;
      Trichotomy(rs[p].name, name);
      if p < k { Transitive(name, rs[p].name, rs[k].name); }
    }
  }

  lemma {:induction false} PutInOrder(rs: Ruleset, p: nat, c: Chain)
    requires Ordered(rs) && p <= |rs| && c.hook == 0
    requires forall k :: p <= k < |rs| ==> rs[k].hook == 0 && Less(c.name, rs[k].name)
    requires forall k :: 0 <= k < p && rs[k].hook == 0 ==> Less(rs[k].name, c.name)
    ensures Ordered(InsertAt(rs, p, c))
  {
    var rs' := InsertAt(rs, p, c);
    assert forall k :: 0 <= k < |rs'| ==> rs'[k] == if k < p then rs[k] else if k == p then c else rs[k - 1];
    hide InsertAt;
  }

  lemma {:induction false} CreateKeepsOrder(rs: Ruleset, name: Name)
    requires WellFormed(rs) && name != "" && Create(rs, name).Ok?
    ensures Ordered(Create(rs, name).value)
  {
    var p := Place(rs, name);
    AboveThePlace(rs, name);
    hide RulesOk, HooksOk, Place;
    PutInOrder(rs, p, Chain(name, 0, RETURN, []));
  }

  lemma {:induction false} DeleteKeepsRulesOk(rs: Ruleset, d: nat)
    requires RulesOk(rs) && d < |rs| && Calls(rs, rs[d].name) == 0
    ensures RulesOk(RemoveAt(rs, d))
  {
    var rs' := RemoveAt(rs, d);
    forall j, i | 0 <= j < |rs'| && 0 <= i < |rs'[j].rules| ensures RuleOk(rs', rs'[j].rules[i]) {
      var r := rs'[j].rules[i];
      var j' := if j < d then j else j + 1;
      assert r == rs[j'].rules[i] && RuleOk(rs, rs[j'].rules[i]);
      if r.action.Call? {
        NoCallsMeansNone(rs, rs[d].name, j', i);
        RemoveKeepsUsers(rs, d, r.action.chain);
      }
      RuleOkCarries(rs, rs', r);
    }
  }

  lemma {:induction false} DeleteKeepsWellFormed(rs: Ruleset, name: Name)
    requires WellFormed(rs) && Delete(rs, name).Ok?
    ensures WellFormed(Delete(rs, name).value)
  {
    var d := Lookup(rs, name).value;
    DeleteKeepsRulesOk(rs, d);
    DeleteKeepsOrder(rs, d);
  }

  lemma {:induction false} DeleteKeepsOrder(rs: Ruleset, d: nat)
    requires NamesDiffer(rs) && Ordered(rs) && HooksOk(rs) && d < |rs|
    ensures NamesDiffer(RemoveAt(rs, d)) && Ordered(RemoveAt(rs, d)) && HooksOk(RemoveAt(rs, d))
  {
    var rs' := RemoveAt(rs, d);
    assert forall k :: 0 <= k < d ==> rs'[k] == rs[k];
    assert forall k :: d <= k < |rs'| ==> rs'[k] == rs[k + 1];
  }

  // ----------------------------------------------------------------------------- calls under edits

  /** The number of calls of a chain changes by what the edited chain's rules gain and lose. */
  lemma {:induction false} CallsWithRules(rs: Ruleset, k: nat, rules: seq<Rule>, name: Name)
    requires k < |rs|
    ensures Calls(WithRules(rs, k, rules), name)
         == Calls(rs, name) - Total(rs[k].rules, IsCall(name)) + Total(rules, IsCall(name))
  {
    TotalUpdate(rs, k, rs[k].(rules := rules), CallsIn(name));
  }

  // ------------------------------------------------------------------------------------- undo laws

  /** Deleting by number what was just inserted restores the table. */
  lemma {:induction false} DeleteNumUndoesInsert(rs: Ruleset, chain: Name, e: Entry, n: nat)
    requires NamesDiffer(rs) && Insert(rs, chain, e, n).Ok?
    ensures DeleteNum(Insert(rs, chain, e, n).value, chain, n) == Ok(rs)
  {
    var k := Lookup(rs, chain).value;
    var rs' := Insert(rs, chain, e, n).value;
    assert NamesDiffer(rs') by { assert SameChains(rs, rs'); }
    LookupAt(rs', k);
    RemoveUndoesInsert(rs[k].rules, n, RuleFor(rs, e).value);
    assert WithRules(rs', k, rs[k].rules) == rs;
  }

  lemma {:induction false} LookupSame(rs: Ruleset, rs': Ruleset, name: Name)
    requires SameChains(rs, rs') && NamesDiffer(rs)
    ensures NamesDiffer(rs') && Lookup(rs, name) == Lookup(rs', name)
  {
    if Lookup(rs, name).Some? { LookupAt(rs', Lookup(rs, name).value); }
  }

  lemma {:induction false} RuleForSame(rs: Ruleset, rs': Ruleset, e: Entry)
    requires SameChains(rs, rs') && NamesDiffer(rs)
    ensures RuleFor(rs, e) == RuleFor(rs', e)
  {
    LookupSame(rs, rs', e.target.name);
  }

  /** A comparison mask of zeros. */
  ghost predicate IsZeroMask(mask: Bytes) { forall i :: 0 <= i < |mask| ==> mask[i] == 0 }

  /** All that a comparison mask of zeros leaves to compare: headers, names and sizes, and what a rule does unless
      that is in the data of an extension. */
  predicate SameShape(a: Rule, b: Rule) {
    && a.ip.src == b.ip.src && a.ip.srcMask == b.ip.srcMask && a.ip.dst == b.ip.dst && a.ip.dstMask == b.ip.dstMask
    && a.ip.proto == b.ip.proto && a.ip.flags == b.ip.flags && a.ip.invFlags == b.ip.invFlags
    && a.ip.inMask == b.ip.inMask && a.ip.outMask == b.ip.outMask
    && (forall i :: 0 <= i < 16 ==> a.ip.inIface[i] & a.ip.inMask[i] == b.ip.inIface[i] & b.ip.inMask[i])
    && (forall i :: 0 <= i < 16 ==> a.ip.outIface[i] & a.ip.outMask[i] == b.ip.outIface[i] & b.ip.outMask[i])
    && |a.matches| == |b.matches|
    && (forall k :: 0 <= k < |a.matches| ==>
         a.matches[k].name == b.matches[k].name && |a.matches[k].data| == |b.matches[k].data|)
    && a.targetSize == b.targetSize
    && match (a.action, b.action)
       case (Extension(n, d), Extension(n', d')) => n == n' && |d| == |d'|
       case _ => a.action == b.action
  }

  /** Interfaces agree if their masks are equal and their names are equal under them. */
  lemma {:induction false} InterfacesAgree(a: Interface, aMask: Interface, b: Interface, bMask: Interface)
    ensures SameInterface(a, aMask, b, bMask)
       <==> aMask == bMask && forall i :: 0 <= i < 16 ==> a[i] & aMask[i] == b[i] & bMask[i]
  {
    if SameInterface(a, aMask, b, bMask) {
      forall i | 0 <= i < 16 ensures aMask[i] == bMask[i] && a[i] & aMask[i] == b[i] & bMask[i] {
        assert MaskedSame(a[i], aMask[i], b[i], bMask[i]);
      }
    }
  }

  lemma {:induction false} ZeroBits(x: bv8, y: bv8)
    ensures BitsAgree(x, y, 0)
  {
  }

  lemma {:induction false} ZeroMaskBytes(a: Bytes, b: Bytes, mask: Bytes, off: nat)
    requires IsZeroMask(mask) && off + |a| <= |mask|
    ensures SameBytes(a, b, mask, off) <==> |a| == |b|
  {
    if |a| == |b| {
      forall i | 0 <= i < |a| ensures BitsAgree(a[i], b[i], mask[off + i]) {
        ZeroBits(a[i], b[i]);
      }
    }
  }

  lemma {:induction false} ZeroMaskOnMatches(a: seq<Match>, b: seq<Match>, mask: Bytes, k: nat)
    requires IsZeroMask(mask) && |mask| >= ENTRY_SIZE + MatchesSize(a) && k < |a| == |b|
    ensures ENTRY_SIZE + MatchesSize(a[..k]) + HEADER_SIZE + |a[k].data| <= |mask|
    ensures SameBytes(a[k].data, b[k].data, mask, ENTRY_SIZE + MatchesSize(a[..k]) + HEADER_SIZE)
            <==> |a[k].data| == |b[k].data|
  {
    MatchesFit(a, k);
    hide SameBytes, MatchesSize, IsZeroMask;
    ZeroMaskBytes(a[k].data, b[k].data, mask, ENTRY_SIZE + MatchesSize(a[..k]) + HEADER_SIZE);
  }

  /** Under a mask of zeros rules compare equal exactly when they have the same shape. */
  lemma {:induction false} ZeroMaskComparesShape(a: Rule, b: Rule, mask: Bytes)
    requires IsZeroMask(mask) && |mask| >= ENTRY_SIZE + MatchesSize(a.matches) + a.targetSize
    requires a.action.Extension? ==> a.targetSize == HEADER_SIZE + |a.action.data|
    ensures Same(a, b, mask) <==> SameShape(a, b)
  {
    InterfacesAgree(a.ip.inIface, a.ip.inMask, b.ip.inIface, b.ip.inMask);
    InterfacesAgree(a.ip.outIface, a.ip.outMask, b.ip.outIface, b.ip.outMask);
    hide SameBytes, SameInterface, IsZeroMask, MatchesSize;
    if |a.matches| == |b.matches| {
      forall k | 0 <= k < |a.matches|
        ensures SameBytes(a.matches[k].data, b.matches[k].data, mask,
                          ENTRY_SIZE + MatchesSize(a.matches[..k]) + HEADER_SIZE)
           <==> |a.matches[k].data| == |b.matches[k].data|
      {
        ZeroMaskOnMatches(a.matches, b.matches, mask, k);
      }
    }
    if a.action.Extension? && b.action.Extension? {
      ZeroMaskBytes(a.action.data, b.action.data, mask, ENTRY_SIZE + MatchesSize(a.matches) + HEADER_SIZE);
    }
  }

  /** The binding's mask is such a mask.  A rule of the shape of the one given that stands before it is deleted in its
      place. */
  lemma {:induction false} ShapeDeleted(a: Rule, b: Rule)
    requires ENTRY_SIZE + MatchesSize(b.matches) + b.targetSize <= |DELETE_MASK|
    requires b.action.Extension? ==> b.targetSize == HEADER_SIZE + |b.action.data|
    requires SameShape(b, a)
    ensures IsZeroMask(DELETE_MASK)
    ensures FirstSame([a, b], b, DELETE_MASK, 0) == Some(0) && RemoveAt([a, b], 0) == [b]
  {
    ZeroMaskComparesShape(b, a, DELETE_MASK);
    hide Same, SameShape;
  }

  /** Two rules for logging that differ in the extension's data: the second one is given, and the first one goes. */
  lemma {:induction false} OtherDataDeleted() returns (a: Rule, b: Rule)
    ensures a != b && a.(action := b.action) == b && a.action.Extension? && b.action.Extension?
    ensures IsZeroMask(DELETE_MASK)
    ensures FirstSame([a, b], b, DELETE_MASK, 0) == Some(0) && RemoveAt([a, b], 0) == [b]
  {
    var ip := Ip(0, 0, 0, 0, NO_INTERFACE, NO_INTERFACE, NO_INTERFACE, NO_INTERFACE, 0, 0, 0);
    a := Rule(ip, [], HEADER_SIZE + 1, Extension("NFLOG", [1]));
    b := Rule(ip, [], HEADER_SIZE + 1, Extension("NFLOG", [2]));
    assert MatchesSize([]) == 0;
    ShapeDeleted(a, b);
  }

  /** A rule is the same as itself under any mask that is long enough for it. */
  lemma {:induction false} SameReflexive(r: Rule, mask: Bytes)
    requires |mask| >= ENTRY_SIZE + MatchesSize(r.matches) + r.targetSize
    requires r.action.Extension? ==> r.targetSize == HEADER_SIZE + |r.action.data|
    ensures Same(r, r, mask)
  {
    forall k | 0 <= k < |r.matches|
      ensures SameBytes(r.matches[k].data, r.matches[k].data, mask,
                        ENTRY_SIZE + MatchesSize(r.matches[..k]) + HEADER_SIZE)
    {
      MatchesFit(r.matches, k);
    }
  }

  lemma {:induction false} MatchesFit(ms: seq<Match>, k: nat)
    requires k < |ms|
    ensures MatchesSize(ms[..k]) + MatchSize(ms[k]) <= MatchesSize(ms)
  {
    var f := (m: Match) => MatchSize(m);
    assert ms == ms[..k] + ms[k..];
    TotalConcat(ms[..k], ms[k..], f);
    TotalBounds(ms[k..], 0, 0, f);
  }

  /** Some rule before place `n` is the same as `r`. */
  predicate SameBefore(rules: seq<Rule>, n: nat, r: Rule, mask: Bytes) {
    var first := FirstSame(rules, r, mask, 0);
    first.Some? && first.value < n
  }

  /** Deleting by pattern what was just inserted restores the table when no equal rule stands before it. */
  lemma {:induction false} DeleteSameUndoesInsert(rs: Ruleset, chain: Name, e: Entry, n: nat, mask: Bytes)
    requires NamesDiffer(rs) && Insert(rs, chain, e, n).Ok?
    requires |mask| >= EntrySize(e)
    requires !SameBefore(rs[Lookup(rs, chain).value].rules, n, RuleFor(rs, e).value, mask)
    ensures DeleteSame(Insert(rs, chain, e, n).value, chain, e, mask) == Ok(rs)
  {
    var k := Lookup(rs, chain).value;
    var rs' := Insert(rs, chain, e, n).value;
    assert SameChains(rs, rs');
    LookupSame(rs, rs', chain);
    RuleForSame(rs, rs', e);
    SelfSame(rs, e, mask);
    FirstSameInserted(rs[k].rules, n, RuleFor(rs, e).value, mask);
    InsertedRemoved(rs, k, n, RuleFor(rs, e).value);
  }

  lemma {:induction false} SelfSame(rs: Ruleset, e: Entry, mask: Bytes)
    requires RuleFor(rs, e).Ok? && |mask| >= EntrySize(e)
    ensures Same(RuleFor(rs, e).value, RuleFor(rs, e).value, mask)
  {
    SameReflexive(RuleFor(rs, e).value, mask);
  }

  lemma {:induction false} FirstSameInserted(rules: seq<Rule>, n: nat, r: Rule, mask: Bytes)
    requires n <= |rules| && Same(r, r, mask) && !SameBefore(rules, n, r, mask)
    ensures FirstSame(InsertAt(rules, n, r), r, mask, 0) == Some(n)
  {
    var rules' := InsertAt(rules, n, r);
    assert rules'[n] == r && forall j :: 0 <= j < n ==> rules'[j] == rules[j];
  }

  lemma {:induction false} InsertedRemoved(rs: Ruleset, k: nat, n: nat, r: Rule)
    requires k < |rs| && n <= |rs[k].rules|
    ensures WithRules(WithRules(rs, k, InsertAt(rs[k].rules, n, r)), k, RemoveAt(InsertAt(rs[k].rules, n, r), n)) == rs
  {
    RemoveUndoesInsert(rs[k].rules, n, r);
  }
}
