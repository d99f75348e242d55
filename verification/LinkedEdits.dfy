/** The rule edits of the library on a linked chain, in the terms of `Rulesets`. */
module LinkedEdits {
  import opened Names
  import opened Seqs
  import opened Rulesets
  import opened Editing
  import opened Cache
  import opened Deletion
  import opened LinkedRules

  /** The linked rules are those of chain `k`, which is called `chain`. */
  ghost predicate IsChain(items: seq<RuleHead>, rs: Ruleset, chain: Name, k: nat) {
    Lookup(rs, chain) == Some(k) && k < |rs| && rs[k].rules == Map(items, AbsRule)
  }

  /** Links a resolved rule in at place `n`. */
  method InsertLinked(c: RuleChain<RuleHead>, n: nat, r: RuleHead, ghost rs: Ruleset, ghost chain: Name, ghost k: nat,
                      ghost e: Entry)
    requires c.Valid() && IsChain(c.Items(), rs, chain, k) && n <= c.numRules && RuleFor(rs, e) == Ok(AbsRule(r))
    modifies c, c.rules, c.links
    ensures c.Valid() && Insert(rs, chain, e, n) == Ok(WithRules(rs, k, Map(c.Items(), AbsRule)))
  {
    MapInsert(c.Items(), n, r, AbsRule);
    hide InsertAt, RuleFor;
    c.Insert(n, r);
  }

  /** Exchanges rule `n` for a resolved one. */
  method ReplaceLinked(c: RuleChain<RuleHead>, n: nat, r: RuleHead, ghost rs: Ruleset, ghost chain: Name, ghost k: nat,
                       ghost e: Entry)
    requires c.Valid() && IsChain(c.Items(), rs, chain, k) && n < c.numRules && RuleFor(rs, e) == Ok(AbsRule(r))
    modifies c, c.rules, c.links
    ensures c.Valid() && Replace(rs, chain, e, n) == Ok(WithRules(rs, k, Map(c.Items(), AbsRule)))
  {
    MapUpdate(c.Items(), n, r, AbsRule);
    hide RuleFor;
    c.Replace(n, r);
  }

  method DeleteNumLinked(c: RuleChain<RuleHead>, n: nat, ghost rs: Ruleset, ghost chain: Name, ghost k: nat)
    requires c.Valid() && IsChain(c.Items(), rs, chain, k) && n < c.numRules
    modifies c, c.rules, c.links
    ensures c.Valid() && DeleteNum(rs, chain, n) == Ok(WithRules(rs, k, Map(c.Items(), AbsRule)))
  {
    MapRemove(c.Items(), n, AbsRule);
    hide RemoveAt;
    c.DeleteNum(n);
  }

  /** Walks the list, compares rule by rule with the mask running along, and takes out the first that compares equal. */
  method DeleteSameLinked(c: RuleChain<RuleHead>, pattern: RuleHead, mask: Bytes,
                          ghost rs: Ruleset, ghost chain: Name, ghost k: nat, ghost e: Entry) returns (found: bool)
    requires c.Valid() && IsChain(c.Items(), rs, chain, k) && RuleFor(rs, e) == Ok(AbsRule(pattern))
    requires |mask| >= EntrySize(pattern.entry)
    modifies c, c.rules, c.links
    ensures c.Valid()
    ensures found ==> DeleteSame(rs, chain, e, mask) == Ok(WithRules(rs, k, Map(c.Items(), AbsRule)))
    ensures !found ==> DeleteSame(rs, chain, e, mask) == Err(ENOENT) && c.Items() == old(c.Items())
  {
    ghost var items := c.Items();
    ghost var n;
    var r: Link?<RuleHead>;
    r, n := FindSameLinked(c, pattern, mask);
    if r == null {
      return false;
    }
    MapRemove(items, n, AbsRule);
    hide RemoveAt, FirstSame, RuleFor;
    c.DeleteRule(r, n);
    return true;
  }

  /** The first rule that compares equal, or null. */
  method FindSameLinked(c: RuleChain<RuleHead>, pattern: RuleHead, mask: Bytes)
      returns (r: Link?<RuleHead>, ghost at: nat)
    requires c.Valid() && |mask| >= EntrySize(pattern.entry)
    ensures r == null ==> FirstSame(Map(c.Items(), AbsRule), AbsRule(pattern), mask, 0) == None
    ensures r != null ==> at < |c.links| && r == c.links[at]
    ensures r != null ==> FirstSame(Map(c.Items(), AbsRule), AbsRule(pattern), mask, 0) == Some(at)
  {
    ghost var rules := Map(c.Items(), AbsRule);
    LinkedRuleCount(c.links);
    ghost var ring := [c.rules] + c.links;
    ghost var n := 0;
    var pos := c.rules.next;
    hide Same, AbsRule, EntrySize, Map, ItemsOf, Distinct, AllRules;
    while pos != c.rules
      invariant n <= |c.links| && pos == After(ring, n)
      invariant forall j :: 0 <= j < n ==> !Same(AbsRule(pattern), rules[j], mask)
      decreases |c.links| - n
    {
      assert pos == ring[n + 1] == c.links[n];
      LinkedRuleAt(c.links, n);
      var same := RuleIsSame(pattern, pos.item.value, mask);
      if same {
        return pos, n;
      }
      n := n + 1;
      pos := pos.next;
    }
    return null, n;
  }

  lemma {:induction false} LinkedRuleCount(links: seq<Link<RuleHead>>)
    requires AllRules(links)
    ensures |Map(ItemsOf(links), AbsRule)| == |links|
  {
  }

  lemma {:induction false} LinkedRuleAt(links: seq<Link<RuleHead>>, n: nat)
    requires AllRules(links) && n < |links|
    ensures links[n].item.Some? && |Map(ItemsOf(links), AbsRule)| == |links|
    ensures Map(ItemsOf(links), AbsRule)[n] == AbsRule(links[n].item.value)
  {
  }
}
