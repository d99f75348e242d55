/** The system firewall as its callers see it: two edits of the mangle table and a commit for each client, and
    sequences of edits and commits that set it up and take it down.  Each of these operations may raise, because of
    what is in the table or because a system call fails.  The object that does this is in `Base`. */
module Wall {
  import opened Names
  import opened Seqs
  import opened Rulesets
  import opened Editing
  import opened Mangle

  /** The table as edited so far, the table in force, and the number of table operations made. */
  datatype Table = Table(edited: Ruleset, inForce: Ruleset, ops: nat)

  /** What does not change: the table in which the firewall is installed, its configuration, and which table
      operations fail from outside (taking a snapshot, or the kernel refusing it).  Nothing depends on `host`
      but what is proved. */
  datatype Env = Env(host: Ruleset, setup: Setup, fault: nat -> bool)

  ghost predicate EnvOk(env: Env) {
    Host(env.host) && SetupOk(env.setup) && Lookup(env.host, PREROUTING).Some?
  }

  // ------------------------------------------------------------------------------------- operations

  /** One edit; it raises when the library reports an error. */
  function Edited(env: Env, t: Table, r: Result<Ruleset>): (Table, bool) {
    if env.fault(t.ops) || r.Err? then (t.(ops := t.ops + 1), false)
    else (t.(edited := r.value, ops := t.ops + 1), true)
  }

  function Committed(env: Env, t: Table): (Table, bool) {
    if env.fault(t.ops) then (t.(ops := t.ops + 1), false)
    else (t.(inForce := t.edited, ops := t.ops + 1), true)
  }

  /** Lets a client through. */
  function ClientAdded(env: Env, t: Table, a: Address): (Table, bool) {
    var (t1, ok1) := Edited(env, t, Insert(t.edited, CATTIVO, ClientAcceptEntry(env.setup, a), 2));
    if !ok1 then (t1, false)
    else
      var (t2, ok2) := Edited(env, t1, Insert(t1.edited, CATTIVO, ClientLogEntry(env.setup, a), 2));
      if !ok2 then (t2, false) else Committed(env, t2)
  }

  /** Lets a client through no more. */
  function ClientRemoved(env: Env, t: Table, a: Address): (Table, bool) {
    var (t1, ok1) := Edited(env, t, DeleteSame(t.edited, CATTIVO, ClientLogEntry(env.setup, a), DELETE_MASK));
    if !ok1 then (t1, false)
    else
      var (t2, ok2) := Edited(env, t1, DeleteSame(t1.edited, CATTIVO, ClientAcceptEntry(env.setup, a), DELETE_MASK));
      if !ok2 then (t2, false) else Committed(env, t2)
  }

  /** Takes the jump out; without the chain its target cannot be made. */
  function JumpDropped(rs: Ruleset, s: Setup): Result<Ruleset> {
    if Lookup(rs, CATTIVO).None? then Err(ENOENT) else DeleteSame(rs, PREROUTING, JumpEntry(s), DELETE_MASK)
  }

  /** Takes jump, rules and chain away, as far as that can be done, and commits what comes out. */
  function TakenDown(env: Env, t: Table): Table {
    var t1 := Edited(env, t, JumpDropped(t.edited, env.setup)).0;
    var t2 := Edited(env, t1, Flush(t1.edited, CATTIVO)).0;
    var t3 := Edited(env, t2, Delete(t2.edited, CATTIVO)).0;
    Committed(env, t3).0
  }

  /** Appends the fixed rules to the chain. */
  function FixedRulesEdited(env: Env, t: Table): (Table, bool) {
    var (t1, ok1) := Edited(env, t, Append(t.edited, CATTIVO, AuthenticatorEntry(env.setup)));
    if !ok1 then (t1, false)
    else
      var (t2, ok2) := Edited(env, t1, Append(t1.edited, CATTIVO, LocalTrafficEntry()));
      if !ok2 then (t2, false) else Edited(env, t2, Append(t2.edited, CATTIVO, TproxyEntry(env.setup)))
  }

  /** Makes the chain with its fixed rules. */
  function ChainEdited(env: Env, t: Table): (Table, bool) {
    var (t1, ok1) := Edited(env, t, Create(t.edited, CATTIVO));
    if !ok1 then (t1, false) else FixedRulesEdited(env, t1)
  }

  /** Makes and commits the chain, and then the jump into it. */
  function SetUp(env: Env, t: Table): (Table, bool) {
    var (t1, ok1) := ChainEdited(env, t);
    if !ok1 then (t1, false)
    else
      var (t2, ok2) := Committed(env, t1);
      if !ok2 then (t2, false)
      else
        var (t3, ok3) := Edited(env, t2, Append(t2.edited, PREROUTING, JumpEntry(env.setup)));
        if !ok3 then (t3, false) else Committed(env, t3)
  }

  // --------------------------------------------------------------------------- operation by operation

  lemma {:induction false} EditedWhen(env: Env, t: Table, r: Result<Ruleset>)
    ensures Edited(env, t, r).1 ==> r == Ok(Edited(env, t, r).0.edited)
    ensures Edited(env, t, r).0.ops == t.ops + 1
    ensures env.fault(t.ops) || r.Err? ==> Edited(env, t, r) == (t.(ops := t.ops + 1), false)
    ensures !env.fault(t.ops) && r.Ok? ==> Edited(env, t, r) == (t.(edited := r.value, ops := t.ops + 1), true)
  {
  }

  lemma {:induction false} CommittedWhen(env: Env, t: Table)
    ensures Committed(env, t) == if env.fault(t.ops) then (t.(ops := t.ops + 1), false)
                                 else (t.(inForce := t.edited, ops := t.ops + 1), true)
  {
  }

  lemma {:induction false} JumpDroppedIs(rs: Ruleset, s: Setup)
    ensures JumpDropped(rs, s) == if Lookup(rs, CATTIVO).None? then Err(ENOENT)
                                  else DeleteSame(rs, PREROUTING, JumpEntry(s), DELETE_MASK)
  {
    hide DeleteSame;
  }

  /** Letting a client in, operation by operation. */
  lemma {:induction false} ClientAddedIs(env: Env, t: Table, a: Address)
    ensures var (t1, ok1) := Edited(env, t, Insert(t.edited, CATTIVO, ClientAcceptEntry(env.setup, a), 2));
      var (t2, ok2) := Edited(env, t1, Insert(t1.edited, CATTIVO, ClientLogEntry(env.setup, a), 2));
      && t1.ops == t.ops + 1 && t2.ops == t.ops + 2 && Committed(env, t2).0.ops == t.ops + 3
      && ClientAdded(env, t, a) == if !ok1 then (t1, false) else if !ok2 then (t2, false) else Committed(env, t2)
  {
    hide Insert;
  }

  /** Shutting a client out, operation by operation. */
  lemma {:induction false} ClientRemovedIs(env: Env, t: Table, a: Address)
    ensures var (t1, ok1) := Edited(env, t, DeleteSame(t.edited, CATTIVO, ClientLogEntry(env.setup, a), DELETE_MASK));
      var (t2, ok2) := Edited(env, t1, DeleteSame(t1.edited, CATTIVO, ClientAcceptEntry(env.setup, a), DELETE_MASK));
      && t1.ops == t.ops + 1 && t2.ops == t.ops + 2 && Committed(env, t2).0.ops == t.ops + 3
      && ClientRemoved(env, t, a) == if !ok1 then (t1, false) else if !ok2 then (t2, false) else Committed(env, t2)
  {
    hide DeleteSame;
  }

  lemma {:induction false} TakenDownIs(env: Env, t: Table)
    ensures var t1 := Edited(env, t, JumpDropped(t.edited, env.setup)).0;
      var t2 := Edited(env, t1, Flush(t1.edited, CATTIVO)).0;
      var t3 := Edited(env, t2, Delete(t2.edited, CATTIVO)).0;
      t1.ops == t.ops + 1 && t2.ops == t.ops + 2 && t3.ops == t.ops + 3 && TakenDown(env, t) == Committed(env, t3).0
  {
    hide JumpDropped, Flush, Delete;
  }

  /** Appending the fixed rules, operation by operation. */
  lemma {:induction false} FixedRulesEditedIs(env: Env, t: Table)
    ensures var (t1, ok1) := Edited(env, t, Append(t.edited, CATTIVO, AuthenticatorEntry(env.setup)));
      var (t2, ok2) := Edited(env, t1, Append(t1.edited, CATTIVO, LocalTrafficEntry()));
      var (t3, ok3) := Edited(env, t2, Append(t2.edited, CATTIVO, TproxyEntry(env.setup)));
      && t1.ops == t.ops + 1 && t2.ops == t.ops + 2 && t3.ops == t.ops + 3
      && FixedRulesEdited(env, t) == if !ok1 then (t1, false) else if !ok2 then (t2, false) else (t3, ok3)
  {
    hide Append;
  }

  lemma {:induction false} ChainEditedIs(env: Env, t: Table)
    ensures var (t1, ok1) := Edited(env, t, Create(t.edited, CATTIVO));
      t1.ops == t.ops + 1 && ChainEdited(env, t) == if !ok1 then (t1, false) else FixedRulesEdited(env, t1)
    ensures ChainEdited(env, t).1 ==> ChainEdited(env, t).0.ops == t.ops + 4
  {
    FixedRulesEditedIs(env, Edited(env, t, Create(t.edited, CATTIVO)).0);
    hide Create, FixedRulesEdited;
  }

  /** Setting up, step by step. */
  lemma {:induction false} SetUpIs(env: Env, t: Table)
    ensures var (t1, ok1) := ChainEdited(env, t);
      var (t2, ok2) := Committed(env, t1);
      var (t3, ok3) := Edited(env, t2, Append(t2.edited, PREROUTING, JumpEntry(env.setup)));
      && t2.ops == t1.ops + 1 && t3.ops == t1.ops + 2 && Committed(env, t3).0.ops == t1.ops + 3
      && SetUp(env, t) == if !ok1 then (t1, false) else if !ok2 then (t2, false)
                          else if !ok3 then (t3, false) else Committed(env, t3)
  {
    hide ChainEdited, Append;
  }

  lemma {:induction false} SetUpOps(env: Env, t: Table)
    ensures SetUp(env, t).1 ==> SetUp(env, t).0.ops == t.ops + 7
  {
    SetUpIs(env, t);
    ChainEditedIs(env, t);
    hide *;
  }

  // ------------------------------------------------------------------------------------------ faults

  /** None of the next `n` table operations fails from outside. */
  ghost predicate FaultFree(env: Env, from: nat, n: nat) {
    forall i :: from <= i < from + n ==> !env.fault(i)
  }

  /** The table operation number `k` of a call with three is the first one to fail from outside. */
  ghost predicate FailsAt(env: Env, ops: nat, k: nat) {
    k < 3 && env.fault(ops + k) && FaultFree(env, ops, k)
  }

  lemma {:induction false} FailureIs(env: Env, ops: nat, k: nat)
    requires FailsAt(env, ops, k)
    ensures k < 3 && (k == 0 <==> env.fault(ops)) && (k == 1 ==> env.fault(ops + 1)) && (k == 2 ==> env.fault(ops + 2))
    ensures k == 2 ==> !env.fault(ops + 1)
    ensures !FaultFree(env, ops, 3)
  {
  }

  /** If any of three operations fails, one of them is the first. */
  lemma {:induction false} SomeFailure(env: Env, ops: nat) returns (k: nat)
    requires !FaultFree(env, ops, 3)
    ensures FailsAt(env, ops, k)
  {
    k := if env.fault(ops) then 0 else if env.fault(ops + 1) then 1 else 2;
  }

  lemma {:induction false} FaultFreeSplits(env: Env, from: nat, m: nat, n: nat)
    ensures FaultFree(env, from, m + n) <==> FaultFree(env, from, m) && FaultFree(env, from + m, n)
  {
  }

  lemma {:induction false} FaultFreeThree(env: Env, from: nat)
    ensures FaultFree(env, from, 3) <==> !env.fault(from) && !env.fault(from + 1) && !env.fault(from + 2)
    ensures FaultFree(env, from, 0)
  {
  }

  lemma {:induction false} FaultFreeFour(env: Env, from: nat)
    ensures FaultFree(env, from, 4)
       <==> !env.fault(from) && !env.fault(from + 1) && !env.fault(from + 2) && !env.fault(from + 3)
  {
  }

  // ------------------------------------------------------------------------- when the table is installed

  /** The table, edited and in force, is the one with the firewall installed and these sources let through. */
  ghost predicate Shows(env: Env, t: Table, sources: seq<Address>) {
    && EnvOk(env)
    && t.edited == Installed(env.host, env.setup, sources) && t.inForce == t.edited
  }

  /** Two edits and a commit. */
  function ThreeSteps(env: Env, t: Table, r1: Result<Ruleset>, r2: Result<Ruleset>): (Table, bool) {
    var (t1, ok1) := Edited(env, t, r1);
    if !ok1 then (t1, false)
    else
      var (t2, ok2) := Edited(env, t1, r2);
      if !ok2 then (t2, false) else Committed(env, t2)
  }

  lemma {:induction false} ThreeOps(env: Env, t: Table, r1: Result<Ruleset>, r2: Result<Ruleset>, rs1: Ruleset,
                                    rs2: Ruleset)
    requires r1 == Ok(rs1) && r2 == Ok(rs2)
    ensures ThreeSteps(env, t, r1, r2).1 <==> FaultFree(env, t.ops, 3)
    ensures ThreeSteps(env, t, r1, r2).1 ==> ThreeSteps(env, t, r1, r2).0 == Table(rs2, rs2, t.ops + 3)
  {
    FaultFreeThree(env, t.ops);
    hide FaultFree;
  }

  lemma {:induction false} AddedInThree(env: Env, t: Table, a: Address, rs1: Ruleset)
    requires Insert(t.edited, CATTIVO, ClientAcceptEntry(env.setup, a), 2) == Ok(rs1)
    ensures ClientAdded(env, t, a) == ThreeSteps(env, t, Ok(rs1), Insert(rs1, CATTIVO, ClientLogEntry(env.setup, a), 2))
  {
    hide Insert;
  }

  lemma {:induction false} RemovedInThree(env: Env, t: Table, a: Address, rs1: Ruleset)
    requires DeleteSame(t.edited, CATTIVO, ClientLogEntry(env.setup, a), DELETE_MASK) == Ok(rs1)
    ensures ClientRemoved(env, t, a)
         == ThreeSteps(env, t, Ok(rs1), DeleteSame(rs1, CATTIVO, ClientAcceptEntry(env.setup, a), DELETE_MASK))
  {
    hide DeleteSame;
  }

  lemma {:induction false} AddHalf(rs: Ruleset, s: Setup, a: Address, rs2: Ruleset) returns (rs1: Ruleset)
    requires AddClientTo(rs, s, a) == Ok(rs2)
    ensures Insert(rs, CATTIVO, ClientAcceptEntry(s, a), 2) == Ok(rs1)
    ensures Insert(rs1, CATTIVO, ClientLogEntry(s, a), 2) == Ok(rs2)
  {
    hide Insert;
    rs1 := Insert(rs, CATTIVO, ClientAcceptEntry(s, a), 2).value;
  }

  lemma {:induction false} RemoveHalf(rs: Ruleset, s: Setup, a: Address, rs2: Ruleset) returns (rs1: Ruleset)
    requires RemoveClientFrom(rs, s, a) == Ok(rs2)
    ensures DeleteSame(rs, CATTIVO, ClientLogEntry(s, a), DELETE_MASK) == Ok(rs1)
    ensures DeleteSame(rs1, CATTIVO, ClientAcceptEntry(s, a), DELETE_MASK) == Ok(rs2)
  {
    hide DeleteSame;
    rs1 := DeleteSame(rs, CATTIVO, ClientLogEntry(s, a), DELETE_MASK).value;
  }

  lemma {:induction false} NothingToRemove(env: Env, t: Table, a: Address)
    requires RemoveClientFrom(t.edited, env.setup, a).Err?
    ensures !ClientRemoved(env, t, a).1
  {
    hide DeleteSame;
  }

  lemma {:induction false} ShownTable(env: Env, t: Table, sources: seq<Address>)
    requires Shows(env, t, sources)
    ensures Host(env.host) && SetupOk(env.setup) && Lookup(env.host, PREROUTING).Some?
    ensures t.edited == Installed(env.host, env.setup, sources)
  {
  }

  lemma {:induction false} ShownAgain(env: Env, t: Table, sources: seq<Address>, t': Table, sources': seq<Address>)
    requires Shows(env, t, sources)
    ensures Lookup(env.host, PREROUTING).Some?
    ensures t'.edited == t'.inForce == Installed(env.host, env.setup, sources') ==> Shows(env, t', sources')
  {
    hide Installed, Host, SetupOk;
  }

  /** In an installed table a client is let in unless a system call fails, and its pair of rules is then in
      force in front of the others. */
  lemma {:induction false} AddingShows(env: Env, t: Table, sources: seq<Address>, a: Address)
    requires Shows(env, t, sources)
    ensures ClientAdded(env, t, a).1 <==> FaultFree(env, t.ops, 3)
    ensures ClientAdded(env, t, a).1 ==>
      Shows(env, ClientAdded(env, t, a).0, [a] + sources) && ClientAdded(env, t, a).0.ops == t.ops + 3
  {
    hide *;
    ShownTable(env, t, sources);
    ClientsComeAndGo(env.host, env.setup, sources, a);
    var rs1 := AddHalf(t.edited, env.setup, a, Installed(env.host, env.setup, [a] + sources));
    ThreeOps(env, t, Insert(t.edited, CATTIVO, ClientAcceptEntry(env.setup, a), 2),
             Insert(rs1, CATTIVO, ClientLogEntry(env.setup, a), 2), rs1, Installed(env.host, env.setup, [a] + sources));
    AddedInThree(env, t, a, rs1);
    ShownAgain(env, t, sources, ClientAdded(env, t, a).0, [a] + sources);
  }

  /** A client is shut out exactly if it has a rule and no system call fails; its first pair of rules is then in
      force no more. */
  lemma {:induction false} RemovingShows(env: Env, t: Table, sources: seq<Address>, a: Address)
    requires Shows(env, t, sources)
    ensures ClientRemoved(env, t, a).1 <==> FirstRule(sources, a).Some? && FaultFree(env, t.ops, 3)
    ensures ClientRemoved(env, t, a).1 ==>
      && Shows(env, ClientRemoved(env, t, a).0, RemoveAt(sources, FirstRule(sources, a).value))
      && ClientRemoved(env, t, a).0.ops == t.ops + 3
  {
    hide *;
    ShownTable(env, t, sources);
    ClientsComeAndGo(env.host, env.setup, sources, a);
    match FirstRule(sources, a)
    case None => NothingToRemove(env, t, a);
    case Some(i) =>
      var rs2 := Installed(env.host, env.setup, RemoveAt(sources, i));
      var rs1 := RemoveHalf(t.edited, env.setup, a, rs2);
      ThreeOps(env, t, DeleteSame(t.edited, CATTIVO, ClientLogEntry(env.setup, a), DELETE_MASK),
               DeleteSame(rs1, CATTIVO, ClientAcceptEntry(env.setup, a), DELETE_MASK), rs1, rs2);
      RemovedInThree(env, t, a, rs1);
      ShownAgain(env, t, sources, ClientRemoved(env, t, a).0, RemoveAt(sources, i));
  }

  // --------------------------------------------------------------------------------- in any table

  /** There is a place for a client's rules: the chain exists and has its two fixed rules. */
  predicate HasRoom(rs: Ruleset) {
    Lookup(rs, CATTIVO).Some? && |rs[Lookup(rs, CATTIVO).value].rules| >= 2
  }

  lemma {:induction false} LookupSameNames(rs: Ruleset, rs': Ruleset, name: Name)
    requires SameChains(rs, rs')
    ensures Lookup(rs, name) == Lookup(rs', name)
  {
    if rs != [] { LookupSameNames(rs[..|rs| - 1], rs'[..|rs'| - 1], name); }
  }

  lemma {:induction false} NflogIsNoHook(rs: Ruleset, s: Setup, a: Address)
    requires WellFormed(rs)
    ensures RuleFor(rs, ClientLogEntry(s, a)).Ok? && RuleFor(rs, ClientAcceptEntry(s, a)).Ok?
  {
    assert HOOK_NAMES[0] != "NFLOG" && HOOK_NAMES[1] != "NFLOG" && HOOK_NAMES[2] != "NFLOG" && HOOK_NAMES[3] != "NFLOG";
    assert forall k :: 0 <= k < |rs| && rs[k].hook > 0 ==> rs[k].name != "NFLOG";
    hide WellFormed;
  }

  /** When an entry can be inserted behind the two fixed rules; the place is there again for the next one. */
  lemma {:induction false} InsertWhen(rs: Ruleset, e: Entry)
    requires RuleFor(rs, e).Ok?
    ensures Insert(rs, CATTIVO, e, 2).Ok? <==> HasRoom(rs)
    ensures HasRoom(rs) ==> HasRoom(Insert(rs, CATTIVO, e, 2).value)
  {
    hide RuleFor, Lookup;
    var r := Insert(rs, CATTIVO, e, 2);
    if r.Ok? { LookupSameNames(rs, r.value, CATTIVO); }
  }

  lemma {:induction false} NotAddedInOne(env: Env, t: Table, a: Address)
    requires Insert(t.edited, CATTIVO, ClientAcceptEntry(env.setup, a), 2).Err?
    ensures !ClientAdded(env, t, a).1
  {
    hide Insert;
  }

  /** Whatever the table, a client is let in if and only if there is a place for its rules and no system call
      fails. */
  lemma {:induction false} AddingSucceedsIff(env: Env, t: Table, a: Address)
    requires WellFormed(t.edited)
    ensures ClientAdded(env, t, a).1 <==> HasRoom(t.edited) && FaultFree(env, t.ops, 3)
  {
    hide *;
    var rs, e := t.edited, ClientAcceptEntry(env.setup, a);
    NflogIsNoHook(rs, env.setup, a);
    InsertWhen(rs, e);
    if HasRoom(rs) {
      var rs1 := Insert(rs, CATTIVO, e, 2).value;
      var e1 := ClientLogEntry(env.setup, a);
      EditKeepsWellFormed(rs, CATTIVO, e, 2, []);
      NflogIsNoHook(rs1, env.setup, a);
      InsertWhen(rs1, e1);
      AddedInThree(env, t, a, rs1);
      ThreeOps(env, t, Ok(rs1), Insert(rs1, CATTIVO, e1, 2), rs1, Insert(rs1, CATTIVO, e1, 2).value);
    } else {
      NotAddedInOne(env, t, a);
    }
  }

  /** The table edited by the first `k` edits of letting a client in. */
  function EditedUpTo(rs: Ruleset, s: Setup, a: Address, k: nat): Ruleset {
    if k == 0 then rs
    else if k == 1 then Try(rs, Insert(rs, CATTIVO, ClientAcceptEntry(s, a), 2))
    else Try(rs, AddClientTo(rs, s, a))
  }

  /** What a refused client leaves, whatever the table: the table in force stays as it is; when there is no room, or
      the first operation fails, nothing is edited; otherwise the accept rule, or both rules, stay in the edited
      table. */
  lemma {:induction false} RefusedLeaves(env: Env, t: Table, a: Address, k: nat)
    requires WellFormed(t.edited)
    ensures !HasRoom(t.edited) ==> ClientAdded(env, t, a) == (t.(ops := t.ops + 1), false)
    ensures HasRoom(t.edited) && FailsAt(env, t.ops, k) ==>
      && Insert(t.edited, CATTIVO, ClientAcceptEntry(env.setup, a), 2).Ok? && AddClientTo(t.edited, env.setup, a).Ok?
      && ClientAdded(env, t, a) == (t.(edited := EditedUpTo(t.edited, env.setup, a, k), ops := t.ops + k + 1), false)
  {
    hide *;
    var rs, e := t.edited, ClientAcceptEntry(env.setup, a);
    NflogIsNoHook(rs, env.setup, a);
    InsertWhen(rs, e);
    if !HasRoom(rs) {
      NotAddedAtAll(env, t, a);
    } else if FailsAt(env, t.ops, k) {
      FailureIs(env, t.ops, k);
      var rs1 := Insert(rs, CATTIVO, e, 2).value;
      var e1 := ClientLogEntry(env.setup, a);
      EditKeepsWellFormed(rs, CATTIVO, e, 2, []);
      NflogIsNoHook(rs1, env.setup, a);
      InsertWhen(rs1, e1);
      AddedHalfway(env, t, a, rs1, Insert(rs1, CATTIVO, e1, 2).value, k);
    }
  }

  lemma {:induction false} NotAddedAtAll(env: Env, t: Table, a: Address)
    requires Insert(t.edited, CATTIVO, ClientAcceptEntry(env.setup, a), 2).Err?
    ensures ClientAdded(env, t, a) == (t.(ops := t.ops + 1), false)
  {
    hide Insert;
  }

  lemma {:induction false} AddedHalfway(env: Env, t: Table, a: Address, rs1: Ruleset, rs2: Ruleset, k: nat)
    requires Insert(t.edited, CATTIVO, ClientAcceptEntry(env.setup, a), 2) == Ok(rs1)
    requires Insert(rs1, CATTIVO, ClientLogEntry(env.setup, a), 2) == Ok(rs2) && FailsAt(env, t.ops, k)
    ensures AddClientTo(t.edited, env.setup, a) == Ok(rs2)
    ensures ClientAdded(env, t, a) == (t.(edited := EditedUpTo(t.edited, env.setup, a, k), ops := t.ops + k + 1), false)
  {
    FailureIs(env, t.ops, k);
    hide Insert, FailsAt, FaultFree;
  }

  /** A call that fails leaves the table in force as it is, whatever it has edited. */
  lemma {:induction false} RefusedKeepsInForce(env: Env, t: Table, a: Address)
    ensures !ClientAdded(env, t, a).1 ==> ClientAdded(env, t, a).0.inForce == t.inForce
    ensures !ClientRemoved(env, t, a).1 ==> ClientRemoved(env, t, a).0.inForce == t.inForce
  {
    ClientAddedIs(env, t, a);
    ClientRemovedIs(env, t, a);
    hide Insert, DeleteSame, ClientAdded, ClientRemoved;
  }

  /** Without outside failures a client is let in or shut out exactly when the two edits succeed, and what is then in
      force is what they make of the table. */
  lemma {:induction false} WithoutFaults(env: Env, t: Table, a: Address)
    requires FaultFree(env, t.ops, 3)
    ensures match AddClientTo(t.edited, env.setup, a)
      case Ok(rs) => ClientAdded(env, t, a) == (Table(rs, rs, t.ops + 3), true)
      case Err(_) => !ClientAdded(env, t, a).1 && ClientAdded(env, t, a).0.inForce == t.inForce
    ensures match RemoveClientFrom(t.edited, env.setup, a)
      case Ok(rs) => ClientRemoved(env, t, a) == (Table(rs, rs, t.ops + 3), true)
      case Err(_) => !ClientRemoved(env, t, a).1 && ClientRemoved(env, t, a).0.inForce == t.inForce
  {
    FaultFreeThree(env, t.ops);
    hide Insert, DeleteSame, FaultFree;
  }
}
