/** When the editing calls fail, and with which error: said of the names, numbers and sizes that a caller can see.
    Whenever a call fails, the table stays as it is; here is exactly when that happens. */
module Outcomes {
  import opened Names
  import opened Seqs
  import opened Rulesets

  /** No chain has the name. */
  ghost predicate NoChain(rs: Ruleset, name: Name) { forall k :: 0 <= k < |rs| ==> rs[k].name != name }

  /** Some builtin chain, or some user chain, has the name. */
  ghost predicate Builtin(rs: Ruleset, name: Name) {
    exists k :: 0 <= k < |rs| && rs[k].name == name && rs[k].hook > 0
  }

  ghost predicate User(rs: Ruleset, name: Name) { exists k :: 0 <= k < |rs| && rs[k].name == name && rs[k].hook == 0 }

  /** The number of rules of the chain with the name. */
  ghost predicate HasRules(rs: Ruleset, name: Name, n: nat) {
    exists k :: 0 <= k < |rs| && rs[k].name == name && |rs[k].rules| == n
  }

  /** The target is refused: one of the reserved names, but not of the size of a verdict, which is 40 bytes with its
      header of 32; or the name of a builtin chain. */
  ghost predicate Refused(rs: Ruleset, t: Target) {
    if t.name in {"ACCEPT", "DROP", "QUEUE", "RETURN"} then 32 + |t.data| != 40 else t.name != "" && Builtin(rs, t.name)
  }

  lemma {:induction false} LookupSays(rs: Ruleset, name: Name)
    requires NamesDiffer(rs)
    ensures Lookup(rs, name).None? <==> NoChain(rs, name)
    ensures match Lookup(rs, name)
      case None => !Builtin(rs, name) && !User(rs, name)
      case Some(k) =>
        && (Builtin(rs, name) <==> rs[k].hook > 0) && (User(rs, name) <==> rs[k].hook == 0)
        && forall n :: HasRules(rs, name, n) <==> n == |rs[k].rules|
  {
    forall k | 0 <= k < |rs| && rs[k].name == name ensures Lookup(rs, name) == Some(k) {
      LookupAt(rs, k);
    }
    hide Lookup;
  }

  lemma {:induction false} RuleForSays(rs: Ruleset, e: Entry)
    requires NamesDiffer(rs)
    ensures RuleFor(rs, e).Ok? <==> !Refused(rs, e.target)
    ensures RuleFor(rs, e).Err? ==> RuleFor(rs, e) == Err(EINVAL)
  {
    LookupSays(rs, e.target.name);
    hide Lookup, NamesDiffer, Builtin;
  }

  /** Inserting at place `i` and replacing rule `i`: the chain must be there, the place must be, and then the
      target must not be refused. */
  lemma {:induction false} PuttingFails(rs: Ruleset, chain: Name, e: Entry, i: nat, n: nat)
    requires NamesDiffer(rs) && (NoChain(rs, chain) || HasRules(rs, chain, n))
    ensures Insert(rs, chain, e, i).Err? ==>
      Insert(rs, chain, e, i) == if NoChain(rs, chain) then Err(ENOENT) else if i > n then Err(E2BIG) else Err(EINVAL)
    ensures Insert(rs, chain, e, i).Ok? <==> !NoChain(rs, chain) && i <= n && !Refused(rs, e.target)
    ensures Replace(rs, chain, e, i).Err? ==>
      Replace(rs, chain, e, i) == if NoChain(rs, chain) then Err(ENOENT) else if i >= n then Err(E2BIG) else Err(EINVAL)
    ensures Replace(rs, chain, e, i).Ok? <==> !NoChain(rs, chain) && i < n && !Refused(rs, e.target)
    ensures Append(rs, chain, e).Err? ==>
      Append(rs, chain, e) == if NoChain(rs, chain) then Err(ENOENT) else Err(EINVAL)
    ensures Append(rs, chain, e).Ok? <==> !NoChain(rs, chain) && !Refused(rs, e.target)
  {
    LookupSays(rs, chain);
    RuleForSays(rs, e);
    hide Lookup, RuleFor, NamesDiffer, Refused, NoChain, HasRules, Builtin, User;
  }

  /** Deleting: the chain must be there; then, by number, the rule must be, and by pattern, the target must not
      be refused and some rule must compare equal. */
  lemma {:induction false} TakingFails(rs: Ruleset, chain: Name, e: Entry, mask: Bytes, i: nat, n: nat)
    requires NamesDiffer(rs) && (NoChain(rs, chain) || HasRules(rs, chain, n))
    ensures DeleteNum(rs, chain, i).Err? ==>
      DeleteNum(rs, chain, i) == if NoChain(rs, chain) then Err(ENOENT) else Err(E2BIG)
    ensures DeleteNum(rs, chain, i).Ok? <==> !NoChain(rs, chain) && i < n
    ensures Flush(rs, chain).Err? ==> Flush(rs, chain) == Err(ENOENT)
    ensures Flush(rs, chain).Ok? <==> !NoChain(rs, chain)
    ensures DeleteSame(rs, chain, e, mask).Err? ==>
      DeleteSame(rs, chain, e, mask) ==
        if !NoChain(rs, chain) && Refused(rs, e.target) then Err(EINVAL) else Err(ENOENT)
    ensures DeleteSame(rs, chain, e, mask).Ok? <==>
      !NoChain(rs, chain) && !Refused(rs, e.target) && SomeSame(rs, chain, RuleFor(rs, e), mask)
  {
    LookupSays(rs, chain);
    RuleForSays(rs, e);
    if Lookup(rs, chain).Some? && RuleFor(rs, e).Ok? {
      SameSays(rs, chain, RuleFor(rs, e).value, mask);
    }
    hide Lookup, RuleFor, NamesDiffer, Refused, NoChain, HasRules, Builtin, User, Same, SomeSame;
  }

  /** Some rule of the chain compares equal to the one that the pattern stands for. */
  ghost predicate SomeSame(rs: Ruleset, chain: Name, r: Result<Rule>, mask: Bytes) {
    r.Ok? && exists k, i ::
      0 <= k < |rs| && rs[k].name == chain && 0 <= i < |rs[k].rules| && Same(r.value, rs[k].rules[i], mask)
  }

  lemma {:induction false} SameSays(rs: Ruleset, chain: Name, r: Rule, mask: Bytes)
    requires NamesDiffer(rs) && Lookup(rs, chain).Some?
    ensures FirstSame(rs[Lookup(rs, chain).value].rules, r, mask, 0).Some? <==> SomeSame(rs, chain, Ok(r), mask)
  {
    var k := Lookup(rs, chain).value;
    forall j | 0 <= j < |rs| && rs[j].name == chain ensures j == k {
      LookupAt(rs, j);
    }
    hide Lookup, NamesDiffer, Same;
  }

  /** Chains: a new one must not exist yet, must not have a reserved name, nor one of more than 31 characters;
      one that is to go must be there, must not be builtin, must not be jumped to and must be empty; and a
      policy can only be given to a builtin chain, and must be ACCEPT or DROP. */
  lemma {:induction false} ChainCallsFail(rs: Ruleset, name: Name, policy: Name)
    requires NamesDiffer(rs)
    ensures Create(rs, name).Err? ==>
      Create(rs, name) ==
        if !NoChain(rs, name) || name in {"ACCEPT", "DROP", "QUEUE", "RETURN"} then Err(EEXIST) else Err(EINVAL)
    ensures Create(rs, name).Ok? <==>
      NoChain(rs, name) && name !in {"ACCEPT", "DROP", "QUEUE", "RETURN"} && |name| <= 31
    ensures Delete(rs, name).Err? ==>
      Delete(rs, name) ==
        if NoChain(rs, name) then Err(ENOENT)
        else if Builtin(rs, name) then Err(EINVAL)
        else if Calls(rs, name) > 0 then Err(EMLINK) else Err(ENOTEMPTY)
    ensures Delete(rs, name).Ok? <==> User(rs, name) && Calls(rs, name) == 0 && HasRules(rs, name, 0)
    ensures SetPolicy(rs, name, policy).Err? ==>
      SetPolicy(rs, name, policy) == if Builtin(rs, name) then Err(EINVAL) else Err(ENOENT)
    ensures SetPolicy(rs, name, policy).Ok? <==> Builtin(rs, name) && (policy == "ACCEPT" || policy == "DROP")
  {
    LookupSays(rs, name);
    hide Lookup, NamesDiffer, NoChain, HasRules, Builtin, User, Calls, Place;
  }
}
