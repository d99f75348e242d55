/** Setting the firewall up in the host's table and taking it down again, when table operations may fail. */
module Lifecycle {
  import opened Names
  import opened Seqs
  import opened Rulesets
  import opened Editing
  import opened Mangle
  import opened Wall

  /** The firewall is not installed: the table, edited and in force, is the host's. */
  ghost predicate AtRest(env: Env, t: Table) {
    EnvOk(env) && t.edited == t.inForce == env.host
  }

  // ------------------------------------------------------------------------------ tables on the way

  /** The host's table with the chain, holding `rules`, and perhaps the jump into it. */
  function Shaped(rs: Ruleset, s: Setup, jump: bool, rules: seq<Rule>): Ruleset
    requires Lookup(rs, PREROUTING).Some?
  {
    if jump then
      var k := Lookup(rs, PREROUTING).value;
      InsertAt(WithRules(rs, k, rs[k].rules + [JumpRule(s)]), Place(rs, CATTIVO), Chain(CATTIVO, 0, RETURN, rules))
    else WithoutJump(rs, rules)
  }

  lemma {:induction false} InstalledShape(rs: Ruleset, s: Setup)
    requires Lookup(rs, PREROUTING).Some?
    ensures Installed(rs, s, []) == Shaped(rs, s, true, ChainRules(s, []))
  {
    hide ChainRules, Place, JumpRule;
  }

  lemma {:induction false} JumpShape(rs: Ruleset, s: Setup, rules: seq<Rule>)
    requires Lookup(rs, PREROUTING).Some? && Place(rs, CATTIVO) < |Installed(rs, s, [])|
    ensures Shaped(rs, s, true, rules) == WithRules(Installed(rs, s, []), Place(rs, CATTIVO), rules)
  {
    hide ChainRules, JumpRule, Lookup;
  }

  /** Where chain and jump are. */
  lemma {:induction false} ShapePlaces(rs: Ruleset, s: Setup, jump: bool, rules: seq<Rule>)
    requires Host(rs)
    ensures Lookup(rs, PREROUTING).Some?
    ensures var rs' := Shaped(rs, s, jump, rules); var k := Lookup(rs, PREROUTING).value; var p := Place(rs, CATTIVO);
      && k < p < |rs'| && Lookup(rs', CATTIVO) == Some(p) && rs'[p] == Chain(CATTIVO, 0, RETURN, rules)
      && rs'[k].rules == if jump then rs[k].rules + [JumpRule(s)] else rs[k].rules
  {
    HostPlaces(rs);
    var p := Place(rs, CATTIVO);
    if jump {
      InstalledPlaces(rs, s, []);
      assert NamesDiffer(Installed(rs, s, [])) && Lookup(Installed(rs, s, []), CATTIVO) == Some(p);
      LookupKept(Installed(rs, s, []), p, rules);
      hide Host, NamesDiffer, ExtensionsClear, ChainRules, JumpRule, Lookup;
      JumpShape(rs, s, rules);
    } else {
      WithoutJumpPlaces(rs, rules);
      hide Host, NamesDiffer, ExtensionsClear, JumpRule, Lookup;
    }
  }

  /** No two of these tables are alike, and none is the host's. */
  lemma {:induction false} ShapesDiffer(rs: Ruleset, s: Setup, jump: bool, rules: seq<Rule>, jump': bool,
                                        rules': seq<Rule>)
    requires Host(rs) && Lookup(rs, PREROUTING).Some?
    ensures Shaped(rs, s, jump, rules) == Shaped(rs, s, jump', rules') <==> jump == jump' && rules == rules'
    ensures Shaped(rs, s, jump, rules) != rs
  {
    HostNames(rs);
    hide Host, Shaped, NamesDiffer, ExtensionsClear, JumpRule, Lookup;
    ShapePlaces(rs, s, jump, rules);
    ShapePlaces(rs, s, jump', rules');
  }

  lemma {:induction false} FlushShape(rs: Ruleset, s: Setup, jump: bool, rules: seq<Rule>)
    requires Host(rs) && Lookup(rs, PREROUTING).Some?
    ensures Flush(Shaped(rs, s, jump, rules), CATTIVO) == Ok(Shaped(rs, s, jump, []))
  {
    ShapePlaces(rs, s, jump, rules);
    var k, p := Lookup(rs, PREROUTING).value, Place(rs, CATTIVO);
    var rs1 := if jump then WithRules(rs, k, rs[k].rules + [JumpRule(s)]) else rs;
    assert forall r :: Shaped(rs, s, jump, r) == InsertAt(rs1, p, Chain(CATTIVO, 0, RETURN, r));
    hide Host, JumpRule, Lookup, Place, Shaped;
    InsertedRules(rs1, p, Chain(CATTIVO, 0, RETURN, rules), []);
  }

  /** The chain can be deleted exactly if it is empty and the jump is gone. */
  lemma {:induction false} DeleteShape(rs: Ruleset, s: Setup, jump: bool, rules: seq<Rule>)
    requires Host(rs) && Lookup(rs, PREROUTING).Some?
    ensures if !jump && rules == [] then Delete(Shaped(rs, s, jump, rules), CATTIVO) == Ok(rs)
            else Delete(Shaped(rs, s, jump, rules), CATTIVO).Err?
  {
    if !jump && rules == [] {
      WithoutIsShape(rs, s, []);
      hide Shaped;
      EmptiesAndDeletes(rs, []);
    } else {
      hide Host, JumpRule, Lookup, Place, Shaped, Calls;
      ShapePlaces(rs, s, jump, rules);
      if jump { JumpIsCall(rs, s, rules); }
    }
  }

  lemma {:induction false} JumpIsCall(rs: Ruleset, s: Setup, rules: seq<Rule>)
    requires Host(rs) && Lookup(rs, PREROUTING).Some?
    ensures Calls(Shaped(rs, s, true, rules), CATTIVO) > 0
  {
    ShapePlaces(rs, s, true, rules);
    var rs', k := Shaped(rs, s, true, rules), Lookup(rs, PREROUTING).value;
    var n := |rs[k].rules|;
    assert rs'[k].rules[n] == JumpRule(s) && JumpRule(s).action == Call(CATTIVO)
        by { hide Shaped, Host, Place, Lookup; }
    hide Host, JumpRule, Lookup, Place, Shaped, Calls;
    if Calls(rs', CATTIVO) == 0 { NoCallsMeansNone(rs', CATTIVO, k, n); }
  }

  // ------------------------------------------------------------------------------------- taking down

  /** Taking down an installation without clients: what each of the four operations does, whichever fail. */
  lemma {:induction false} TakingDownGives(env: Env, t: Table)
    requires Shows(env, t, [])
    ensures var f := env.fault; var full := ChainRules(env.setup, []);
      var edited :=
        if f(t.ops) then Shaped(env.host, env.setup, true, if f(t.ops + 1) then full else [])
        else if f(t.ops + 1) then Shaped(env.host, env.setup, false, full)
        else if f(t.ops + 2) then Shaped(env.host, env.setup, false, []) else env.host;
      TakenDown(env, t) == Table(edited, if f(t.ops + 3) then t.inForce else edited, t.ops + 4)
  {
    var full := ChainRules(env.setup, []);
    ShownTable(env, t, []);
    InstalledShape(env.host, env.setup);
    DropsJump(env.host, env.setup, []);
    hide *;
    JumpDroppedIs(t.edited, env.setup);
    WithoutIsShape(env.host, env.setup, full);
    ChainIsNotEmpty(env.setup);
    FlushShape(env.host, env.setup, true, full);
    FlushShape(env.host, env.setup, false, full);
    DeleteShape(env.host, env.setup, true, full);
    DeleteShape(env.host, env.setup, true, []);
    DeleteShape(env.host, env.setup, false, full);
    DeleteShape(env.host, env.setup, false, []);
    TakenDownGives(env, t, Ok(Shaped(env.host, env.setup, false, full)));
  }

  lemma {:induction false} ChainIsNotEmpty(s: Setup)
    ensures ChainRules(s, []) != []
  {
  }

  lemma {:induction false} WithoutIsShape(rs: Ruleset, s: Setup, rules: seq<Rule>)
    requires Lookup(rs, PREROUTING).Some?
    ensures WithoutJump(rs, rules) == Shaped(rs, s, false, rules)
  {
  }

  /** The four operations one after the other. */
  lemma {:induction false} TakenDownGives(env: Env, t: Table, r1: Result<Ruleset>)
    requires JumpDropped(t.edited, env.setup) == r1
    ensures var rs1 := if env.fault(t.ops) || r1.Err? then t.edited else r1.value;
      var r2 := Flush(rs1, CATTIVO);
      var rs2 := if env.fault(t.ops + 1) || r2.Err? then rs1 else r2.value;
      var r3 := Delete(rs2, CATTIVO);
      var rs3 := if env.fault(t.ops + 2) || r3.Err? then rs2 else r3.value;
      TakenDown(env, t) == Table(rs3, if env.fault(t.ops + 3) then t.inForce else rs3, t.ops + 4)
  {
    hide JumpDropped, Flush, Delete;
  }

  /** What taking down needs: that nothing fails. */
  ghost predicate TakingDownFails(env: Env, ops: nat) {
    !FaultFree(env, ops, 4) && !(env.fault(ops) && env.fault(ops + 1))
  }

  /** An installation without clients is taken down exactly if no operation fails; it stays as it is exactly if
      neither the jump nor the rules can be taken out; in all other cases half of it is left. */
  lemma {:induction false} TakingDownIff(env: Env, t: Table)
    requires Shows(env, t, [])
    ensures AtRest(env, TakenDown(env, t)) <==> FaultFree(env, t.ops, 4)
    ensures Shows(env, TakenDown(env, t), []) <==> env.fault(t.ops) && env.fault(t.ops + 1)
    ensures TakenDown(env, t).ops == t.ops + 4
  {
    var host, s, full := env.host, env.setup, ChainRules(env.setup, []);
    FaultFreeFour(env, t.ops);
    ShownParts(env, t);
    TakingDownGives(env, t);
    ShownParts(env, TakenDown(env, t));
    RestParts(env, TakenDown(env, t));
    hide *;
    ChainIsNotEmpty(s);
    ShapesDiffer(host, s, true, full, true, []);
    ShapesDiffer(host, s, true, full, false, full);
    ShapesDiffer(host, s, true, full, false, []);
    ShapesDiffer(host, s, true, [], true, full);
    ShapesDiffer(host, s, false, full, true, full);
    ShapesDiffer(host, s, false, [], true, full);
  }

  lemma {:induction false} ShownParts(env: Env, t: Table)
    ensures Shows(env, t, []) ==>
      EnvOk(env) && Host(env.host) && SetupOk(env.setup) && Lookup(env.host, PREROUTING).Some?
    ensures EnvOk(env) ==>
      (Shows(env, t, []) <==> t.edited == t.inForce == Shaped(env.host, env.setup, true, ChainRules(env.setup, [])))
  {
    if EnvOk(env) { InstalledShape(env.host, env.setup); }
    hide Host, SetupOk, Installed, Shaped, ChainRules;
  }

  lemma {:induction false} RestParts(env: Env, t: Table)
    ensures AtRest(env, t) ==> EnvOk(env) && Host(env.host) && SetupOk(env.setup) && Lookup(env.host, PREROUTING).Some?
    ensures EnvOk(env) ==> (AtRest(env, t) <==> t.edited == t.inForce == env.host)
  {
    hide Host, SetupOk;
  }

  /** Where nothing is installed there is nothing to take down, whether or not operations fail. */
  lemma {:induction false} NothingToTakeDown(env: Env, t: Table)
    requires AtRest(env, t)
    ensures TakenDown(env, t) == t.(ops := t.ops + 4)
  {
    HostNames(env.host);
    hide Host, SetupOk, DeleteSame, NamesDiffer, ExtensionsClear;
  }

  // -------------------------------------------------------------------------------------- setting up

  /** The fixed rules that have been appended after `n` operations. */
  function FixedUpTo(s: Setup, n: nat): seq<Rule> {
    if n == 0 then [] else if n == 1 then [AuthenticatorRule(s)]
    else if n == 2 then [AuthenticatorRule(s), LocalTrafficRule()] else ChainRules(s, [])
  }

  function FixedEntry(s: Setup, n: nat): Entry {
    if n == 0 then AuthenticatorEntry(s) else if n == 1 then LocalTrafficEntry() else TproxyEntry(s)
  }

  lemma {:induction false} FixedAppends(rs: Ruleset, s: Setup, n: nat)
    requires Host(rs) && Lookup(rs, PREROUTING).Some? && n < 3
    ensures Append(Shaped(rs, s, false, FixedUpTo(s, n)), CATTIVO, FixedEntry(s, n))
         == Ok(Shaped(rs, s, false, FixedUpTo(s, n + 1)))
  {
    var r := if n == 0 then AuthenticatorRule(s) else if n == 1 then LocalTrafficRule() else TproxyRule(s);
    var rules := FixedUpTo(s, n);
    assert rules + [r] == FixedUpTo(s, n + 1) by { hide AuthenticatorRule, LocalTrafficRule, TproxyRule; }
    FixedEntries(s);
    WithoutIsShape(rs, s, rules);
    WithoutIsShape(rs, s, FixedUpTo(s, n + 1));
    hide *;
    AppendFixed(rs, s, rules, FixedEntry(s, n), r);
  }

  lemma {:induction false} CreatesShape(rs: Ruleset, s: Setup)
    requires Host(rs) && Lookup(rs, PREROUTING).Some?
    ensures Create(rs, CATTIVO) == Ok(Shaped(rs, s, false, []))
  {
    HostNames(rs);
    hide Host, NamesDiffer, ExtensionsClear, Lookup, Place;
  }

  lemma {:induction false} AppendsJump(rs: Ruleset, s: Setup)
    requires Host(rs) && Lookup(rs, PREROUTING).Some?
    ensures Append(Shaped(rs, s, false, ChainRules(s, [])), PREROUTING, JumpEntry(s))
         == Ok(Shaped(rs, s, true, ChainRules(s, [])))
  {
    JumpAppended(rs, s);
    InstalledShape(rs, s);
    WithoutIsShape(rs, s, ChainRules(s, []));
    hide Append, Host, Installed, ChainRules, Shaped;
  }

  /** The first of the seven operations that fails, if any. */
  ghost function FirstFault(env: Env, ops: nat, n: nat): (k: nat)
    ensures k <= n && FaultFree(env, ops, k) && (k < n ==> env.fault(ops + k))
    decreases n
  {
    if n == 0 then 0
    else
      var k := FirstFault(env, ops, n - 1);
      if k < n - 1 then k else if env.fault(ops + n - 1) then n - 1 else n
  }

  lemma {:induction false} FixedRulesFrom(env: Env, t: Table, r1: Ruleset, r2: Ruleset, r3: Ruleset)
    requires Append(t.edited, CATTIVO, AuthenticatorEntry(env.setup)) == Ok(r1)
    requires Append(r1, CATTIVO, LocalTrafficEntry()) == Ok(r2) && Append(r2, CATTIVO, TproxyEntry(env.setup)) == Ok(r3)
    ensures var k := FirstFault(env, t.ops, 3);
      FixedRulesEdited(env, t) ==
        (t.(edited := if k == 0 then t.edited else if k == 1 then r1 else if k == 2 then r2 else r3,
            ops := t.ops + if k < 3 then k + 1 else 3), k == 3)
  {
    hide Append, AuthenticatorEntry, LocalTrafficEntry, TproxyEntry;
  }

  lemma {:induction false} FixedRulesGive(env: Env, t: Table)
    requires Host(env.host) && Lookup(env.host, PREROUTING).Some? && t.edited == Shaped(env.host, env.setup, false, [])
    ensures var k := FirstFault(env, t.ops, 3);
      FixedRulesEdited(env, t)
        == (t.(edited := Shaped(env.host, env.setup, false, FixedUpTo(env.setup, k)),
               ops := t.ops + if k < 3 then k + 1 else 3), k == 3)
  {
    var host, s := env.host, env.setup;
    FixedEntries(s);
    hide *;
    FixedAppends(host, s, 0);
    FixedAppends(host, s, 1);
    FixedAppends(host, s, 2);
    FixedIs(s);
    FixedRulesFrom(env, t, Shaped(host, s, false, FixedUpTo(s, 1)), Shaped(host, s, false, FixedUpTo(s, 2)),
                   Shaped(host, s, false, FixedUpTo(s, 3)));
  }

  lemma {:induction false} FixedEntries(s: Setup)
    ensures FixedEntry(s, 0) == AuthenticatorEntry(s) && FixedEntry(s, 1) == LocalTrafficEntry()
            && FixedEntry(s, 2) == TproxyEntry(s)
  {
  }

  /** What is left of the chain when operation number `k` is the first of the first four to fail. */
  lemma {:induction false} ChainGives(env: Env, t: Table)
    requires Host(env.host) && Lookup(env.host, PREROUTING).Some? && t.edited == env.host
    ensures var k := FirstFault(env, t.ops, 4);
      ChainEdited(env, t) ==
        (t.(edited := if k == 0 then env.host else Shaped(env.host, env.setup, false, FixedUpTo(env.setup, k - 1)),
            ops := t.ops + if k < 4 then k + 1 else 4), k == 4)
  {
    hide *;
    var host, s, t1 := env.host, env.setup, t.(edited := Shaped(env.host, env.setup, false, []), ops := t.ops + 1);
    CreatesShape(host, s);
    FirstOfFour(env, t.ops);
    ChainEditedIs(env, t);
    FixedIs(s);
    EditedWhen(env, t, Create(t.edited, CATTIVO));
    FixedRulesGive(env, t1);
  }

  lemma {:induction false} FaultIs(env: Env, ops: nat, n: nat, k: nat)
    requires k <= n && FaultFree(env, ops, k) && (k < n ==> env.fault(ops + k))
    ensures FirstFault(env, ops, n) == k
  {
    var j := FirstFault(env, ops, n);
    var atJ: nat, atK: nat := ops + j, ops + k;
    hide FirstFault;
    assert j < k ==> !env.fault(atJ);
    assert k < j ==> !env.fault(atK);
  }

  lemma {:induction false} FirstOfFour(env: Env, ops: nat)
    ensures FirstFault(env, ops, 4) == if env.fault(ops) then 0 else 1 + FirstFault(env, ops + 1, 3)
  {
    var j := FirstFault(env, ops + 1, 3);
    hide FirstFault;
    assert env.fault(ops) ==> FaultFree(env, ops, 0);
    FaultIs(env, ops, 4, if env.fault(ops) then 0 else 1 + j);
  }

  lemma {:induction false} FirstOfSeven(env: Env, ops: nat)
    ensures var k := FirstFault(env, ops, 4);
      FirstFault(env, ops, 7) == if k < 4 then k else if env.fault(ops + 4) then 4 else if env.fault(ops + 5) then 5
                                 else if env.fault(ops + 6) then 6 else 7
    ensures FaultFree(env, ops, 7) <==> FirstFault(env, ops, 7) == 7
    ensures env.fault(ops) <==> FirstFault(env, ops, 7) == 0
  {
    var k, j := FirstFault(env, ops, 4), FirstFault(env, ops, 7);
    var atJ: nat := ops + j;
    hide FirstFault;
    FaultIs(env, ops, 7, if k < 4 then k else if env.fault(ops + 4) then 4 else if env.fault(ops + 5) then 5
                         else if env.fault(ops + 6) then 6 else 7);
    assert j < 7 && FaultFree(env, ops, 7) ==> !env.fault(atJ);
    assert FaultFree(env, ops, j) && j > 0 ==> !env.fault(ops);
  }

  /** The table edited when setting up fails at operation `k`, and the table then in force. */
  function Halfway(rs: Ruleset, s: Setup, k: nat): (Ruleset, Ruleset)
    requires Lookup(rs, PREROUTING).Some?
  {
    var full := ChainRules(s, []);
    (if k == 0 then rs else if k <= 5 then Shaped(rs, s, false, FixedUpTo(s, k - 1)) else Shaped(rs, s, true, full),
     if k <= 4 then rs else if k <= 6 then Shaped(rs, s, false, full) else Shaped(rs, s, true, full))
  }

  lemma {:induction false} SetUpFrom(env: Env, t: Table, rs: Ruleset, s: Setup, k: nat)
    requires Lookup(rs, PREROUTING).Some? && env.setup == s && t.inForce == rs && k == FirstFault(env, t.ops, 4)
    requires ChainEdited(env, t) ==
      (t.(edited := if k == 0 then rs else Shaped(rs, s, false, FixedUpTo(s, k - 1)),
          ops := t.ops + if k < 4 then k + 1 else 4), k == 4)
    requires Append(Shaped(rs, s, false, ChainRules(s, [])), PREROUTING, JumpEntry(s))
             == Ok(Shaped(rs, s, true, ChainRules(s, [])))
    ensures var k := FirstFault(env, t.ops, 7); var (edited, inForce) := Halfway(rs, s, k);
      SetUp(env, t) == (Table(edited, inForce, t.ops + if k < 7 then k + 1 else 7), k == 7)
  {
    FixedIs(s);
    FirstOfSeven(env, t.ops);
    SetUpIs(env, t);
    hide Append, Shaped, ChainRules, FirstFault, FixedUpTo, Lookup, ChainEdited, SetUp, FaultFree;
  }

  /** Setting up where nothing is installed: what is left when operation number `k` is the first to fail. */
  lemma {:induction false} SettingUpGives(env: Env, t: Table)
    requires AtRest(env, t)
    ensures Lookup(env.host, PREROUTING).Some?
    ensures var k := FirstFault(env, t.ops, 7); var (edited, inForce) := Halfway(env.host, env.setup, k);
      SetUp(env, t) == (Table(edited, inForce, t.ops + if k < 7 then k + 1 else 7), k == 7)
  {
    RestParts(env, t);
    hide *;
    AppendsJump(env.host, env.setup);
    ChainGives(env, t);
    SetUpFrom(env, t, env.host, env.setup, FirstFault(env, t.ops, 4));
  }

  lemma {:induction false} FixedIs(s: Setup)
    ensures FixedUpTo(s, 0) == [] && FixedUpTo(s, 3) == FixedUpTo(s, 4) == ChainRules(s, [])
  {
  }

  /** Setting up fails half-way: an operation fails, and it is not the first. */
  ghost predicate SettingUpFails(env: Env, ops: nat) {
    !env.fault(ops) && !FaultFree(env, ops, 7)
  }

  lemma {:induction false} HalfwayIs(rs: Ruleset, s: Setup, k: nat)
    requires Lookup(rs, PREROUTING).Some?
    ensures Halfway(rs, s, k) == var full := ChainRules(s, []);
      (if k == 0 then rs else if k <= 5 then Shaped(rs, s, false, FixedUpTo(s, k - 1)) else Shaped(rs, s, true, full),
       if k <= 4 then rs else if k <= 6 then Shaped(rs, s, false, full) else Shaped(rs, s, true, full))
  {
    hide ChainRules, Shaped, FixedUpTo;
  }

  /** Where nothing is installed, setting up installs the firewall exactly if no operation fails, and leaves everything
      as it was exactly if the first one fails; in all other cases half of it is left. */
  lemma {:induction false} SettingUpIff(env: Env, t: Table)
    requires AtRest(env, t)
    ensures Shows(env, SetUp(env, t).0, []) <==> FaultFree(env, t.ops, 7)
    ensures AtRest(env, SetUp(env, t).0) <==> env.fault(t.ops)
  {
    var host, s, full, k := env.host, env.setup, ChainRules(env.setup, []), FirstFault(env, t.ops, 7);
    var t1 := SetUp(env, t).0;
    RestParts(env, t);
    SettingUpGives(env, t);
    ShownParts(env, t1);
    RestParts(env, t1);
    FixedIs(s);
    FirstOfSeven(env, t.ops);
    HalfwayIs(host, s, k);
    hide *;
    var rules := if k == 0 then [] else FixedUpTo(s, k - 1);
    ShapesDiffer(host, s, false, rules, true, full);
    ShapesDiffer(host, s, false, full, true, full);
    ShapesDiffer(host, s, true, full, true, full);
  }

  lemma {:induction false} InstalledThere(rs: Ruleset, s: Setup, sources: seq<Address>)
    requires Host(rs) && Lookup(rs, PREROUTING).Some?
    ensures Create(Installed(rs, s, sources), CATTIVO) == Err(EEXIST)
  {
    InstalledPlaces(rs, s, sources);
    hide Host, Installed, Lookup, NamesDiffer, ExtensionsClear, Place;
  }

  /** Where the firewall is installed the chain cannot be made once more, and nothing changes. */
  lemma {:induction false} AlreadySetUp(env: Env, t: Table, sources: seq<Address>)
    requires Shows(env, t, sources)
    ensures SetUp(env, t) == (t.(ops := t.ops + 1), false)
  {
    ShownTable(env, t, sources);
    hide *;
    InstalledThere(env.host, env.setup, sources);
    SetUpIs(env, t);
    ChainEditedIs(env, t);
    EditedWhen(env, t, Create(t.edited, CATTIVO));
  }
}
