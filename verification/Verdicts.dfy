/** What the verdicts in a table mean to the kernel: a negative number v stands for its verdict -v - 1, of which 0 drops
    the packet, 1 accepts it and 3 queues it; -5 alone sends it back to the chain that called. */
module Verdicts {
  import opened Names
  import opened Seqs
  import opened Rulesets
  import opened Editing
  import opened Walk

  /** The kernel's verdict for a number in a table. */
  function Netfilter(v: int): int { -v - 1 }

  /** The kernel has decided on the packet with this verdict. */
  predicate DecidedAs<P>(s: State<P>, verdict: int) { s.Ended? && Netfilter(s.verdict) == verdict }

  predicate Dropped<P>(s: State<P>) { DecidedAs(s, 0) }

  predicate Accepted<P>(s: State<P>) { DecidedAs(s, 1) }

  predicate Queued<P>(s: State<P>) { DecidedAs(s, 3) }

  /** A packet that stands at a rule and matches it. */
  ghost predicate MatchesAt(rs: Ruleset, o: Oracle, t: nat, at: Spot) {
    at.chain < |rs| && at.rule < |rs[at.chain].rules|
    && o.matches(t, rs[at.chain].rules[at.rule].ip, rs[at.chain].rules[at.rule].matches)
  }

  /** The entry's target is one of the reserved names, and has the size of a standard target. */
  predicate NamesVerdict(e: Entry) {
    e.target.name in {"ACCEPT", "DROP", "QUEUE", "RETURN"} && HEADER_SIZE + |e.target.data| == STANDARD_SIZE
  }

  /** What a rule made from a reserved name does to a packet that matches it, wherever it is put. */
  lemma {:induction false} NamedVerdicts(rs: Ruleset, e: Entry, rs': Ruleset, o: Oracle, t: nat, at: Spot,
                                         back: seq<Spot>, trail: seq<Spot>)
    requires NamesVerdict(e) && RuleFor(rs, e).Ok? && MatchesAt(rs', o, t, at)
    requires rs'[at.chain].rules[at.rule] == RuleFor(rs, e).value
    ensures var s := Step(rs', o, t, At(at, back, trail));
      && (e.target.name == "ACCEPT" ==> Accepted(s))
      && (e.target.name == "DROP" ==> Dropped(s))
      && (e.target.name == "QUEUE" ==> Queued(s))
      && (e.target.name == "RETURN" ==>
            s == if back == [] then Stuck(trail + [at]) else At(back[0], back[1..], trail + [at]))
    ensures e.target.name == "RETURN" ==> rs'[at.chain].rules[at.rule].action == Verdict(-5)
  {
    hide Lookup;
  }

  /** A rule that has been inserted decides on the packets that match it as its target says; one made from a
      name that is not reserved never decides by itself. */
  lemma {:induction false} InsertedDecides(rs: Ruleset, chain: Name, e: Entry, n: nat, rs': Ruleset, o: Oracle, t: nat,
                                           back: seq<Spot>, trail: seq<Spot>) returns (at: Spot)
    requires NamesDiffer(rs) && Insert(rs, chain, e, n) == Ok(rs') && NamesVerdict(e) && o.matches(t, e.ip, e.matches)
    ensures at.chain < |rs'| && rs'[at.chain].name == chain && at.rule == n
    ensures var s := Step(rs', o, t, At(at, back, trail));
      && (e.target.name == "ACCEPT" ==> Accepted(s))
      && (e.target.name == "DROP" ==> Dropped(s))
      && (e.target.name == "QUEUE" ==> Queued(s))
      && (e.target.name == "RETURN" ==>
            s == if back == [] then Stuck(trail + [at]) else At(back[0], back[1..], trail + [at]))
  {
    var k := Lookup(rs, chain).value;
    at := Spot(k, n);
    assert InsertAt(rs[k].rules, n, RuleFor(rs, e).value)[n] == RuleFor(rs, e).value;
    hide Lookup, Step, NamesDiffer, ActionFor;
    NamedVerdicts(rs, e, rs', o, t, at, back, trail);
  }

  /** A packet that does not match a rule goes on to the next one. */
  lemma {:induction false} NoMatchGoesOn(rs: Ruleset, o: Oracle, t: nat, at: Spot, back: seq<Spot>, trail: seq<Spot>)
    requires at.chain < |rs| && at.rule < |rs[at.chain].rules| && !MatchesAt(rs, o, t, at)
    ensures Step(rs, o, t, At(at, back, trail)) == At(Spot(at.chain, at.rule + 1), back, trail + [at])
  {
    hide Lookup;
  }

  /** A packet that comes to the end of a builtin chain whose policy has been set is accepted or dropped as the policy
      says; an unknown policy and a user chain are refused. */
  lemma {:induction false} PolicyDecides(rs: Ruleset, chain: Name, policy: Name, o: Oracle, t: nat, back: seq<Spot>,
                                         trail: seq<Spot>)
    requires NamesDiffer(rs)
    ensures match SetPolicy(rs, chain, policy)
      case Err(errno) =>
        Lookup(rs, chain).None? || rs[Lookup(rs, chain).value].hook == 0 || (policy != "ACCEPT" && policy != "DROP")
      case Ok(rs') =>
        && Lookup(rs, chain).Some? && |rs'| == |rs|
        && var k := Lookup(rs, chain).value;
           var s := Step(rs', o, t, At(Spot(k, |rs[k].rules|), back, trail));
           && rs[k].hook > 0 && rs' == rs[k := rs[k].(policy := rs'[k].policy)]
           && if policy == "ACCEPT" then Accepted(s) else policy == "DROP" && Dropped(s)
  {
    var r := SetPolicy(rs, chain, policy);
    if r.Ok? {
      var k := Lookup(rs, chain).value;
      var rs' := r.value;
      hide Lookup, NamesDiffer;
      assert rs' == rs[k := rs[k].(policy := rs'[k].policy)];
    }
  }
}
