/** Whole runs of edits: what holds after any sequence of calls of the library, successful or not. */
module EditRuns {
  import opened Names
  import opened Seqs
  import opened Rulesets
  import opened Editing

  datatype Call =
    | InsertCall(chain: Name, e: Entry, n: nat)
    | ReplaceCall(chain: Name, e: Entry, n: nat)
    | AppendCall(chain: Name, e: Entry)
    | DeleteNumCall(chain: Name, n: nat)
    | DeleteSameCall(chain: Name, e: Entry, mask: Bytes)
    | FlushCall(chain: Name)
    | CreateCall(chain: Name)
    | DeleteCall(chain: Name)
    | SetPolicyCall(chain: Name, policy: Name)

  function Outcome(rs: Ruleset, c: Call): Result<Ruleset> {
    match c
    case InsertCall(chain, e, n) => Insert(rs, chain, e, n)
    case ReplaceCall(chain, e, n) => Replace(rs, chain, e, n)
    case AppendCall(chain, e) => Append(rs, chain, e)
    case DeleteNumCall(chain, n) => DeleteNum(rs, chain, n)
    case DeleteSameCall(chain, e, mask) => DeleteSame(rs, chain, e, mask)
    case FlushCall(chain) => Flush(rs, chain)
    case CreateCall(chain) => Create(rs, chain)
    case DeleteCall(chain) => Delete(rs, chain)
    case SetPolicyCall(chain, policy) => SetPolicy(rs, chain, policy)
  }

  /** A call that fails changes nothing. */
  function After(rs: Ruleset, c: Call): Ruleset {
    match Outcome(rs, c)
    case Ok(rs') => rs'
    case Err(_) => rs
  }

  function AfterAll(rs: Ruleset, cs: seq<Call>): Ruleset {
    if cs == [] then rs else After(AfterAll(rs, cs[..|cs| - 1]), cs[|cs| - 1])
  }

  ghost predicate NamesGiven(cs: seq<Call>) {
    forall i :: 0 <= i < |cs| ==> cs[i].chain != ""
  }

  lemma {:induction false} CallKeepsWellFormed(rs: Ruleset, c: Call)
    requires WellFormed(rs) && c.chain != ""
    ensures WellFormed(After(rs, c))
  {
    hide WellFormed, Insert, Replace, Append, DeleteNum, DeleteSame, Flush, Create, Delete, SetPolicy;
    match c {
      case InsertCall(chain, e, n) => EditKeepsWellFormed(rs, chain, e, n, []);
      case ReplaceCall(chain, e, n) => EditKeepsWellFormed(rs, chain, e, n, []);
      case AppendCall(chain, e) => EditKeepsWellFormed(rs, chain, e, 0, []);
      case DeleteNumCall(chain, n) => EditKeepsWellFormed(rs, chain, ANY_ENTRY, n, []);
      case DeleteSameCall(chain, e, mask) => EditKeepsWellFormed(rs, chain, e, 0, mask);
      case FlushCall(chain) => EditKeepsWellFormed(rs, chain, ANY_ENTRY, 0, []);
      case CreateCall(chain) => if Create(rs, chain).Ok? { CreateKeepsWellFormed(rs, chain); }
      case DeleteCall(chain) => if Delete(rs, chain).Ok? { DeleteKeepsWellFormed(rs, chain); }
      case SetPolicyCall(chain, policy) =>
        if SetPolicy(rs, chain, policy).Ok? { SetPolicyKeepsWellFormed(rs, chain, policy); }
    }
  }

  const NO_BYTES: Interface := [0, 0, 0, 0, 0, 0, 0, 0, 0, 0, 0, 0, 0, 0, 0, 0]
  const ANY_ENTRY := Entry(Ip(0, 0, 0, 0, NO_BYTES, NO_BYTES, NO_BYTES, NO_BYTES, 0, 0, 0), [],
                           Target("", [], 0, ""), ZERO_COUNTERS)

  /** After any calls, names differ, builtin chains come first and user chains are strictly sorted, and every
      jump leads to a user chain that is still there. */
  lemma {:induction false} RunKeepsWellFormed(rs: Ruleset, cs: seq<Call>)
    requires WellFormed(rs) && NamesGiven(cs)
    ensures WellFormed(AfterAll(rs, cs))
  {
    hide WellFormed, After;
    if cs != [] {
      RunKeepsWellFormed(rs, cs[..|cs| - 1]);
      CallKeepsWellFormed(AfterAll(rs, cs[..|cs| - 1]), cs[|cs| - 1]);
    }
  }

  /** A chain that some rule calls cannot be deleted, and calls never dangle: over any calls, a rule that calls a
      chain finds it. */
  lemma {:induction false} CallsNeverDangle(rs: Ruleset, cs: seq<Call>, k: nat, i: nat)
    requires WellFormed(rs) && NamesGiven(cs)
    requires var rs' := AfterAll(rs, cs); k < |rs'| && i < |rs'[k].rules| && rs'[k].rules[i].action.Call?
    ensures var rs' := AfterAll(rs, cs);
      var name := rs'[k].rules[i].action.chain;
      && IsUser(rs', name) && Lookup(rs', name).Some? && rs'[Lookup(rs', name).value].hook == 0
      && Delete(rs', name) == Err(EMLINK)
  {
    RunKeepsWellFormed(rs, cs);
    var rs' := AfterAll(rs, cs);
    var name := rs'[k].rules[i].action.chain;
    assert RuleOk(rs', rs'[k].rules[i]);
    var j :| 0 <= j < |rs'| && rs'[j].name == name && rs'[j].hook == 0;
    LookupAt(rs', j);
    if Calls(rs', name) == 0 {
      NoCallsMeansNone(rs', name, k, i);
    }
  }

  /** Builtin chains are never created, deleted, renamed or moved. */
  lemma {:induction false} BuiltinsStay(rs: Ruleset, cs: seq<Call>, k: nat)
    requires WellFormed(rs) && NamesGiven(cs) && k < |rs| && rs[k].hook > 0
    ensures var rs' := AfterAll(rs, cs); k < |rs'| && rs'[k].name == rs[k].name && rs'[k].hook == rs[k].hook
  {
    if cs != [] {
      var front := cs[..|cs| - 1];
      RunKeepsWellFormed(rs, front);
      BuiltinsStay(rs, front, k);
      BuiltinStays(AfterAll(rs, front), cs[|cs| - 1], k);
    }
  }

  lemma {:induction false} BuiltinStays(rs: Ruleset, c: Call, k: nat)
    requires WellFormed(rs) && c.chain != "" && k < |rs| && rs[k].hook > 0
    ensures k < |After(rs, c)| && After(rs, c)[k].name == rs[k].name && After(rs, c)[k].hook == rs[k].hook
  {
    hide RuleFor, FirstSame, RulesOk, HooksOk, NamesDiffer, Calls;
  }
}
