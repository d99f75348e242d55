/** The system firewall: every operation edits the mangle table and commits it. */
module Base {
  import opened Names
  import opened Seqs
  import opened Rulesets
  import opened HandleFacts
  import opened Tables
  import opened Mangle
  import opened Wall
  import opened Commit

  /** What packets do between commits: the `i`-th growth, entry by entry. */
  type Passing = nat -> nat -> Counters

  /** The entries can be compiled wherever they are put. */
  lemma {:induction false} EntriesFit(rs: Ruleset, s: Setup, a: Address)
    requires ExtensionsClear(rs)
    ensures EntryFits(rs, AuthenticatorEntry(s)) && EntryFits(rs, LocalTrafficEntry()) && EntryFits(rs, TproxyEntry(s))
    ensures EntryFits(rs, ClientAcceptEntry(s, a)) && EntryFits(rs, ClientLogEntry(s, a))
  {
    EntriesMean(rs, s, a);
    hide RuleFor, ExtensionsClear;
  }

  lemma {:induction false} JumpFits(rs: Ruleset, s: Setup)
    ensures EntryFits(rs, JumpEntry(s))
  {
    hide Lookup;
  }

  lemma {:induction false} EntriesUnderMask(s: Setup, a: Address)
    requires SetupOk(s)
    ensures EntrySize(ClientAcceptEntry(s, a)) <= |DELETE_MASK| && EntrySize(ClientLogEntry(s, a)) <= |DELETE_MASK|
    ensures EntrySize(JumpEntry(s)) <= |DELETE_MASK|
  {
    OneMatchSize(Match("tcp", s.anyTcp));
    OneMatchSize(Match("tcp", s.tcpPort80));
  }

  /** Inserting a rule leaves the extensions clear. */
  lemma {:induction false} InsertClears(rs: Ruleset, chain: Name, e: Entry, n: nat)
    requires ExtensionsClear(rs) && Rulesets.NamesDiffer(rs)
    ensures Insert(rs, chain, e, n).Ok? ==> ExtensionsClear(Insert(rs, chain, e, n).value)
  {
    hide Mangle.ExtensionsClear, RuleFor;
    match Lookup(rs, chain)
    case None =>
    case Some(k) => forall rules ensures ExtensionsClear(WithRules(rs, k, rules)) { LookupKept(rs, k, rules); }
  }

  lemma {:induction false} WellFormedNames(rs: Ruleset)
    requires WellFormed(rs)
    ensures Rulesets.NamesDiffer(rs)
  {
  }

  class IPTablesFirewall {
    const mangle: Tables.Table
    const setup: Setup

    constructor (mangle: Tables.Table, setup: Setup)
      ensures this.mangle == mangle && this.setup == setup
    {
      this.mangle, this.setup := mangle, setup;
    }

    /** The table edited and the table in force before operation number `ops`. */
    ghost function Now(ops: nat): Wall.Table
      reads mangle, mangle.handle
    {
      Wall.Table(mangle.Rules(), mangle.InForce(), ops)
    }

    // ---------------------------------------------------------------------------- single operations

    method InsertInto(position: nat, e: Entry, chain: Name, env: Env, ops: nat) returns (ok: bool)
      requires mangle.Valid() && EntryFits(mangle.Rules(), e) && chain != ""
      modifies mangle`handle, mangle`grown, mangle.handle
      ensures mangle.Valid()
      ensures mangle.handle == old(mangle.handle) || fresh(mangle.handle)
      ensures (Now(ops + 1), ok) == Edited(env, old(Now(ops)), Insert(old(mangle.Rules()), chain, e, position))
      ensures ok ==> mangle.Changed()
    {
      hide EntryFits, Insert, Lookup, Tables.Table.Valid, Tables.Table.Slots;
      var r := mangle.InsertEntry(position, e, chain, env.fault(ops));
      ok := r.Ok?;
    }

    method CreateIn(chain: Name, env: Env, ops: nat) returns (ok: bool)
      requires mangle.Valid() && chain != ""
      modifies mangle`handle, mangle`grown, mangle.handle
      ensures mangle.Valid()
      ensures mangle.handle == old(mangle.handle) || fresh(mangle.handle)
      ensures (Now(ops + 1), ok) == Edited(env, old(Now(ops)), Create(old(mangle.Rules()), chain))
    {
      hide Create, Lookup, Place, Tables.Table.Valid, Tables.Table.Slots;
      var r := mangle.CreateChain(chain, env.fault(ops));
      ok := r.Ok?;
    }

    method AppendTo(e: Entry, chain: Name, env: Env, ops: nat) returns (ok: bool)
      requires mangle.Valid() && EntryFits(mangle.Rules(), e) && chain != ""
      modifies mangle`handle, mangle`grown, mangle.handle
      ensures mangle.Valid()
      ensures mangle.handle == old(mangle.handle) || fresh(mangle.handle)
      ensures (Now(ops + 1), ok) == Edited(env, old(Now(ops)), Append(old(mangle.Rules()), chain, e))
      ensures ok ==> mangle.Changed()
    {
      hide EntryFits, Append, Lookup, Tables.Table.Valid, Tables.Table.Slots;
      var r := mangle.AppendEntry(e, chain, env.fault(ops));
      ok := r.Ok?;
    }

    method DeleteFrom(e: Entry, chain: Name, env: Env, ops: nat) returns (ok: bool)
      requires mangle.Valid() && EntrySize(e) <= |DELETE_MASK| && chain != ""
      modifies mangle`handle, mangle`grown, mangle.handle
      ensures mangle.Valid()
      ensures mangle.handle == old(mangle.handle) || fresh(mangle.handle)
      ensures (Now(ops + 1), ok) == Edited(env, old(Now(ops)), DeleteSame(old(mangle.Rules()), chain, e, DELETE_MASK))
      ensures ok ==> mangle.Changed()
    {
      hide DeleteSame, FirstSame, RuleFor, Lookup, Tables.Table.Valid, Tables.Table.Slots;
      var r := mangle.DeleteEntry(e, chain, env.fault(ops));
      ok := r.Ok?;
    }

    /** Commits; with nothing edited that cannot fail, and makes no difference. */
    method CommitNow(env: Env, ops: nat, passing: Passing, i: nat) returns (ok: bool)
      requires mangle.Valid()
      modifies mangle, mangle.handle, mangle.kernel
      ensures mangle.Valid()
      ensures Now(ops + 1) == Committed(env, old(Now(ops))).0
      ensures old(mangle.Changed()) ==> ok == Committed(env, old(Now(ops))).1
      ensures old(mangle.handle) != null && !env.fault(ops) ==> ok
      ensures mangle.handle == null || mangle.handle == old(mangle.handle)
    {
      mangle.UnchangedIsInForce();
      hide *;
      CommittedWhen(env, Now(ops));
      NowIs(ops);
      ok := mangle.Commit(passing(i), passing(i + 1), env.fault(ops));
      NowIs(ops + 1);
    }

    // ------------------------------------------------------------------------------------- clients

    /** Puts the client's accept rule and, in front of it, its log rule behind the two fixed ones. */
    method AddClient(a: Address, env: Env, ops: nat, passing: Passing) returns (ok: bool)
      requires mangle.Valid() && ExtensionsClear(mangle.Rules()) && env.setup == setup
      modifies mangle, mangle.handle, mangle.kernel
      ensures mangle.Valid()
      ensures var (t, done) := ClientAdded(env, old(Now(ops)), a); ok == done && Now(t.ops) == t
    {
      mangle.RulesWellFormed();
      ClientAddedIs(env, Now(ops), a);
      hide *;
      WellFormedNames(mangle.Rules());
      InsertClears(mangle.Rules(), CATTIVO, ClientAcceptEntry(setup, a), 2);
      EditedWhen(env, Now(ops), Insert(mangle.Rules(), CATTIVO, ClientAcceptEntry(setup, a), 2));
      EntriesFit(mangle.Rules(), setup, a);
      NowIs(ops);
      ok := InsertInto(2, ClientAcceptEntry(setup, a), CATTIVO, env, ops);
      NowIs(ops + 1);
      if !ok {
        return;
      }
      EntriesFit(mangle.Rules(), setup, a);
      ok := InsertInto(2, ClientLogEntry(setup, a), CATTIVO, env, ops + 1);
      if !ok {
        return;
      }
      ok := CommitNow(env, ops + 2, passing, 0);
    }

    /** Deletes the first rules that equal the client's log rule and its accept rule. */
    method RemoveClient(a: Address, env: Env, ops: nat, passing: Passing) returns (ok: bool)
      requires mangle.Valid() && SetupOk(setup) && env.setup == setup
      modifies mangle, mangle.handle, mangle.kernel
      ensures mangle.Valid()
      ensures var (t, done) := ClientRemoved(env, old(Now(ops)), a); ok == done && Now(t.ops) == t
    {
      ClientRemovedIs(env, Now(ops), a);
      EntriesUnderMask(setup, a);
      hide *;
      NowIs(ops);
      ok := DeleteFrom(ClientLogEntry(setup, a), CATTIVO, env, ops);
      if !ok {
        return;
      }
      NowIs(ops + 1);
      ok := DeleteFrom(ClientAcceptEntry(setup, a), CATTIVO, env, ops + 1);
      if !ok {
        return;
      }
      ok := CommitNow(env, ops + 2, passing, 0);
    }

    // -------------------------------------------------------------------------- setting up, taking down

    /** Takes the jump out of PREROUTING; without the chain its target cannot be made. */
    method DropJump(env: Env, ops: nat)
      requires mangle.Valid() && SetupOk(setup) && env.setup == setup
      modifies mangle`handle, mangle`grown, mangle.handle
      ensures mangle.Valid()
      ensures mangle.handle == old(mangle.handle) || fresh(mangle.handle)
      ensures !env.fault(ops) ==> mangle.handle != null
      ensures Now(ops + 1) == Edited(env, old(Now(ops)), JumpDropped(old(mangle.Rules()), setup)).0
    {
      EntriesUnderMask(setup, 0);
      JumpDroppedIs(mangle.Rules(), setup);
      EditedWhen(env, Now(ops), JumpDropped(mangle.Rules(), setup));
      NowIs(ops);
      hide *;
      var made := mangle.IsChain(CATTIVO, env.fault(ops));
      NowIs(ops);
      NowIs(ops + 1);
      if made {
        var ok := DeleteFrom(JumpEntry(setup), PREROUTING, env, ops);
      }
    }

    /** Empties the chain and deletes it, as far as that can be done. */
    method DropChain(env: Env, ops: nat)
      requires mangle.Valid()
      modifies mangle`handle, mangle`grown, mangle.handle
      ensures mangle.Valid()
      ensures mangle.handle == old(mangle.handle) || fresh(mangle.handle)
      ensures !env.fault(ops) ==> mangle.handle != null
      ensures var t1 := Edited(env, old(Now(ops)), Flush(old(mangle.Rules()), CATTIVO)).0;
        Now(ops + 2) == Edited(env, t1, Delete(t1.edited, CATTIVO)).0
    {
      hide Flush, Delete, Lookup, Tables.Table.Valid, Tables.Table.Slots;
      var r := mangle.FlushEntries(CATTIVO, env.fault(ops));
      r := mangle.DeleteChain(CATTIVO, env.fault(ops + 1));
    }

    /** Takes the jump, the rules and the chain away, as far as they are there; a commit that fails leaves the
        snapshot as it has been edited. */
    method Clean(env: Env, ops: nat, passing: Passing) returns (ok: bool)
      requires mangle.Valid() && SetupOk(setup) && env.setup == setup
      modifies mangle, mangle.handle, mangle.kernel
      ensures mangle.Valid()
      ensures Now(ops + 4) == TakenDown(env, old(Now(ops)))
      ensures FaultFree(env, ops, 4) ==> ok
      ensures mangle.handle == null || mangle.handle == old(mangle.handle) || fresh(mangle.handle)
    {
      FaultFreeFour(env, ops);
      TakenDownIs(env, Now(ops));
      hide *;
      NowIs(ops);
      DropJump(env, ops);
      NowIs(ops + 1);
      DropChain(env, ops + 1);
      ok := CommitNow(env, ops + 3, passing, 0);
    }

    /** Creates the own chain; the names of the extensions stay clear. */
    method CreateOwn(env: Env, ops: nat) returns (ok: bool)
      requires mangle.Valid() && ExtensionsClear(mangle.Rules())
      modifies mangle`handle, mangle`grown, mangle.handle
      ensures mangle.Valid() && ExtensionsClear(mangle.Rules())
      ensures mangle.handle == old(mangle.handle) || fresh(mangle.handle)
      ensures (Now(ops + 1), ok) == Edited(env, old(Now(ops)), Create(old(mangle.Rules()), CATTIVO))
    {
      mangle.RulesWellFormed();
      assert CATTIVO != "";
      hide *;
      CreateClears(mangle.Rules());
      EditedWhen(env, Now(ops), Create(mangle.Rules(), CATTIVO));
      NowIs(ops);
      ok := CreateIn(CATTIVO, env, ops);
      NowIs(ops + 1);
    }

    /** Appends an entry to the own chain; the names of the extensions stay clear. */
    method AppendOwn(e: Entry, env: Env, ops: nat) returns (ok: bool)
      requires mangle.Valid() && ExtensionsClear(mangle.Rules()) && EntryFits(mangle.Rules(), e)
      modifies mangle`handle, mangle`grown, mangle.handle
      ensures mangle.Valid() && ExtensionsClear(mangle.Rules())
      ensures mangle.handle == old(mangle.handle) || fresh(mangle.handle)
      ensures (Now(ops + 1), ok) == Edited(env, old(Now(ops)), Append(old(mangle.Rules()), CATTIVO, e))
      ensures ok ==> mangle.Changed()
    {
      mangle.RulesWellFormed();
      assert CATTIVO != "";
      hide *;
      WellFormedNames(mangle.Rules());
      AppendClears(mangle.Rules(), e);
      EditedWhen(env, Now(ops), Append(mangle.Rules(), CATTIVO, e));
      NowIs(ops);
      ok := AppendTo(e, CATTIVO, env, ops);
      NowIs(ops + 1);
    }

    /** Appends the fixed rules. */
    method AppendFixed(env: Env, ops: nat) returns (ok: bool)
      requires mangle.Valid() && ExtensionsClear(mangle.Rules()) && env.setup == setup
      modifies mangle`handle, mangle`grown, mangle.handle
      ensures mangle.Valid()
      ensures mangle.handle == old(mangle.handle) || fresh(mangle.handle)
      ensures ok ==> mangle.Changed()
      ensures var (t, done) := FixedRulesEdited(env, old(Now(ops)));
        ok == done && Now(t.ops) == t && (ok ==> t.ops == ops + 3)
    {
      FixedRulesEditedIs(env, Now(ops));
      hide *;
      NowIs(ops);
      EntriesFit(mangle.Rules(), setup, 0);
      ok := AppendOwn(AuthenticatorEntry(setup), env, ops);
      NowIs(ops + 1);
      if !ok {
        return;
      }
      EntriesFit(mangle.Rules(), setup, 0);
      ok := AppendOwn(LocalTrafficEntry(), env, ops + 1);
      NowIs(ops + 2);
      if !ok {
        return;
      }
      EntriesFit(mangle.Rules(), setup, 0);
      ok := AppendOwn(TproxyEntry(setup), env, ops + 2);
    }

    /** Makes the chain with its fixed rules. */
    method MakeChain(env: Env, ops: nat) returns (ok: bool)
      requires mangle.Valid() && ExtensionsClear(mangle.Rules()) && env.setup == setup
      modifies mangle`handle, mangle`grown, mangle.handle
      ensures mangle.Valid()
      ensures mangle.handle == old(mangle.handle) || fresh(mangle.handle)
      ensures ok ==> mangle.Changed()
      ensures var (t, done) := ChainEdited(env, old(Now(ops)));
        ok == done && Now(t.ops) == t && (ok ==> t.ops == ops + 4)
    {
      ChainEditedIs(env, Now(ops));
      hide *;
      NowIs(ops);
      ok := CreateOwn(env, ops);
      NowIs(ops + 1);
      if !ok {
        return;
      }
      ok := AppendFixed(env, ops + 1);
    }

    /** Once the authenticator's address is known: makes and commits the chain, then the jump into it. */
    method Install(env: Env, ops: nat, passing: Passing) returns (ok: bool)
      requires mangle.Valid() && ExtensionsClear(mangle.Rules()) && env.setup == setup
      modifies mangle, mangle.handle, mangle.kernel
      ensures mangle.Valid()
      ensures var (t, done) := SetUp(env, old(Now(ops))); ok == done && Now(t.ops) == t
    {
      SetUpIs(env, Now(ops));
      assert PREROUTING != "";
      hide *;
      ok := MakeChain(env, ops);
      if !ok {
        return;
      }
      ok := CommitNow(env, ops + 4, passing, 2);
      NowIs(ops + 5);
      if !ok {
        return;
      }
      JumpFits(mangle.Rules(), setup);
      ok := AppendTo(JumpEntry(setup), PREROUTING, env, ops + 5);
      if !ok {
        return;
      }
      ok := CommitNow(env, ops + 6, passing, 4);
    }

    /** Cleans up after an earlier run, and installs the firewall unless cleaning up has raised. */
    method Initialize(env: Env, ops: nat, passing: Passing) returns (ok: bool)
      requires mangle.Valid() && SetupOk(setup) && env.setup == setup
      requires ExtensionsClear(TakenDown(env, Now(ops)).edited)
      modifies mangle, mangle.handle, mangle.kernel
      ensures mangle.Valid()
      ensures ok ==> SetUp(env, TakenDown(env, old(Now(ops)))) == (Now(ops + 11), true)
      ensures FaultFree(env, ops, 4) ==> ok == SetUp(env, TakenDown(env, old(Now(ops)))).1
    {
      hide *;
      NowIs(ops + 4);
      ok := Clean(env, ops, passing);
      NowIs(ops + 4);
      SetUpOps(env, Now(ops + 4));
      if !ok {
        return;
      }
      ok := Install(env, ops + 4, passing);
    }

    lemma {:induction false} NowIs(ops: nat)
      ensures Now(ops).edited == mangle.Rules() && Now(ops).inForce == mangle.InForce() && Now(ops).ops == ops
    {
    }
  }

  /** A new chain leaves the extensions clear. */
  lemma {:induction false} CreateClears(rs: Ruleset)
    requires ExtensionsClear(rs) && WellFormed(rs)
    ensures Create(rs, CATTIVO).Ok? ==> ExtensionsClear(Create(rs, CATTIVO).value)
  {
    if Create(rs, CATTIVO).Ok? {
      var c := Chain(CATTIVO, 0, RETURN, []);
      LookupInserted(rs, Place(rs, CATTIVO), c, "TPROXY");
      LookupInserted(rs, Place(rs, CATTIVO), c, "NFLOG");
    }
  }

  lemma {:induction false} AppendClears(rs: Ruleset, e: Entry)
    requires ExtensionsClear(rs) && Rulesets.NamesDiffer(rs)
    ensures Append(rs, CATTIVO, e).Ok? ==> ExtensionsClear(Append(rs, CATTIVO, e).value)
  {
    hide Mangle.ExtensionsClear, RuleFor;
    match Lookup(rs, CATTIVO)
    case None =>
    case Some(k) =>
      forall rules ensures ExtensionsClear(WithRules(rs, k, rules)) { LookupKept(rs, k, rules); }
  }
}
