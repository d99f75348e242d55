/** Whole runs of the hole scheduler: any interleaving of openings, removals and firings of the timer. */
module ScheduleRuns {
  import opened Names
  import opened Seqs
  import opened Rulesets
  import opened Mangle
  import opened Wall
  import opened Schedule

  /** A call from outside, or the timer. */
  datatype Event =
    | Add(hole: Hole)
    | Remove(client: Client)
    | RemoveEverything
    | Fire

  function Next(env: Env, s: State, ev: Event, now: real): State {
    match ev
    case Add(hole) => Added(env, s, hole, now).0
    case Remove(client) => RemovedOne(env, s, client, now).0
    case RemoveEverything => RemovedAll(env, s, s.list, now).0
    case Fire => Fired(env, s, now).0
  }

  /** The timer fires only when it is armed, and not before its time. */
  predicate Legal(s: State, ev: Event, now: real) {
    ev.Fire? ==> s.timer.Some? && s.timer.value <= now
  }

  /** Another hole with the same deadline stands before the client's in the list. */
  predicate BehindItsEqual(s: State, client: Client) {
    client in s.entries && s.list != []
    && FirstEqual(s.list, Deadline(s.entries[client])) != None
    && s.list[FirstEqual(s.list, Deadline(s.entries[client])).value] != s.entries[client]
  }

  /** Equal deadlines met in the wrong order: a client is removed that stands behind an equal, or all are removed
      and two are due first. */
  predicate Tied(s: State, ev: Event) {
    match ev
    case Remove(client) => BehindItsEqual(s, client)
    case RemoveEverything => !OneDueFirst(s)
    case _ => false
  }

  /** The number of clients for whom a step calls the firewall: the one it is about, and those whose holes are
      found overdue on the way. */
  function Needs(env: Env, s: State, ev: Event, now: real): nat {
    match ev
    case Add(hole) => if hole.client in s.entries then 0 else 1 + ClosesOnAdd(env, s, hole, now)
    case Remove(client) =>
      if client !in s.entries then 0 else if IsHead(s, client) then 1 + Rank(s.list[1..], now) else 1
    case RemoveEverything => |s.list|
    case Fire => Rank(s.list, now)
  }

  /** What breaks the scheduler: equal deadlines met in the wrong order, and a table operation that fails from
      outside, at any of the firewall calls that the step makes. */
  ghost predicate Breaks(env: Env, s: State, ev: Event, now: real) {
    Tied(s, ev) || !FaultFree(env, s.wall.ops, 3 * Needs(env, s, ev, now))
  }

  lemma {:induction false} BreaksWhen(env: Env, s: State, ev: Event, now: real)
    requires Shows(env, s.wall, s.rules)
    ensures Breaks(env, s, ev, now) <==> Tied(s, ev) || !Smooth(env, s, Needs(env, s, ev, now))
  {
    hide Shows, FaultFree, Tied, Needs;
  }

  lemma {:induction false} BehindMeans(s: State, i: nat)
    requires Consistent(s) && i < |s.list|
    ensures BehindItsEqual(s, s.list[i].hole.client) <==> !FirstOfItsTime(s.list, i)
    ensures IsHead(s, s.list[i].hole.client) <==> i == 0
  {
    EntryOf(s, i);
    assert ClientsDiffer(s.list);
  }

  lemma {:induction false} RemoveIff(env: Env, s: State, client: Client, now: real)
    requires Valid(env, s)
    ensures Valid(env, RemovedOne(env, s, client, now).0)
       <==> !BehindItsEqual(s, client) && Smooth(env, s, Needs(env, s, Remove(client), now))
  {
    PartsOfValid(env, s);
    if client in s.entries {
      hide Valid, Shows, Smooth, Consistent;
      var i := PlaceOf(s, client);
      hide BehindItsEqual, RemovedOne;
      BehindMeans(s, i);
      RemovingKeepsValidIff(env, s, i, now);
    } else {
      hide Valid, Shows, Smooth, Consistent;
    }
  }

  lemma {:induction false} RemoveEverythingIff(env: Env, s: State, now: real)
    requires Valid(env, s)
    ensures Valid(env, RemovedAll(env, s, s.list, now).0) <==> OneDueFirst(s) && Smooth(env, s, |s.list|)
  {
    PartsOfValid(env, s);
    hide Valid, Consistent, Armed, RemovedAll, Shows, Smooth;
    if OneDueFirst(s) {
      RemovingAllEmpties(env, s, now);
    } else {
      RemovingAllCrosses(env, s, now);
    }
  }

  /** One step keeps the invariant exactly when it is not one of the breaking ones. */
  lemma {:induction false} StepKeepsValidIff(env: Env, s: State, ev: Event, now: real)
    requires Valid(env, s) && Legal(s, ev, now)
    ensures Valid(env, Next(env, s, ev, now)) <==> !Breaks(env, s, ev, now)
  {
    PartsOfValid(env, s);
    hide Valid, Breaks, Shows, Smooth, Consistent, Added, RemovedOne, RemovedAll, Fired, BehindItsEqual, OneDueFirst,
        ClosesOnAdd;
    BreaksWhen(env, s, ev, now);
    match ev
    case Add(hole) =>
      if hole.client !in s.entries { AddingKeepsValidIff(env, s, hole, now); } else { AlreadyThere(env, s, hole, now); }
    case Remove(client) => RemoveIff(env, s, client, now);
    case RemoveEverything => RemoveEverythingIff(env, s, now);
    case Fire => FiringClosesOverdue(env, s, now);
  }

  lemma {:induction false} AlreadyThere(env: Env, s: State, hole: Hole, now: real)
    requires hole.client in s.entries
    ensures Added(env, s, hole, now) == (s, HoleError)
  {
  }

  // --------------------------------------------------------------------------------------- whole runs

  datatype Timed = Timed(now: real, event: Event)

  function Run(env: Env, s: State, evs: seq<Timed>): State {
    if evs == [] then s else Next(env, Run(env, s, evs[..|evs| - 1]), evs[|evs| - 1].event, evs[|evs| - 1].now)
  }

  ghost predicate LegalRun(env: Env, s: State, evs: seq<Timed>) {
    evs == [] ||
      var n := |evs| - 1;
      LegalRun(env, s, evs[..n]) && Legal(Run(env, s, evs[..n]), evs[n].event, evs[n].now)
  }

  /** Valid after every step. */
  ghost predicate ValidThroughout(env: Env, s: State, evs: seq<Timed>) {
    Valid(env, Run(env, s, evs)) && (evs == [] || ValidThroughout(env, s, evs[..|evs| - 1]))
  }

  ghost predicate NothingBreaks(env: Env, s: State, evs: seq<Timed>) {
    evs == [] ||
      var n := |evs| - 1;
      NothingBreaks(env, s, evs[..n]) && !Breaks(env, Run(env, s, evs[..n]), evs[n].event, evs[n].now)
  }

  /** Between any two calls of a run dictionary, list, table and timer agree, exactly as long as none of the
      calls was one of the breaking ones. */
  lemma {:induction false} RunStaysValidIff(env: Env, s: State, evs: seq<Timed>)
    requires Valid(env, s) && LegalRun(env, s, evs)
    ensures ValidThroughout(env, s, evs) <==> NothingBreaks(env, s, evs)
  {
    hide Valid, Next, Breaks, Legal;
    if evs != [] {
      var n := |evs| - 1;
      RunStaysValidIff(env, s, evs[..n]);
      if ValidThroughout(env, s, evs[..n]) {
        StepKeepsValidIff(env, Run(env, s, evs[..n]), evs[n].event, evs[n].now);
      }
    }
  }

  /** A run in which nothing breaks ends in a valid state. */
  lemma {:induction false} RunEndsValid(env: Env, s: State, evs: seq<Timed>)
    requires Valid(env, s) && LegalRun(env, s, evs) && NothingBreaks(env, s, evs)
    ensures Valid(env, Run(env, s, evs))
  {
    RunStaysValidIff(env, s, evs);
    hide Valid, Legal, Breaks, Next;
  }

  // ---------------------------------------------------------------------------- neither early nor late

  /** Whether the step sets the timer anew, and so looks for overdue holes. */
  predicate Reschedules(env: Env, s: State, ev: Event, now: real) {
    match ev
    case Add(hole) => hole.client !in s.entries && Earliest(env, s, hole, now)
    case Remove(client) => IsHead(s, client)
    case RemoveEverything => false
    case Fire => true
  }

  /** The holes that a step is meant to leave open, before overdue ones are looked for. */
  function Intended(s: State, ev: Event, now: real): map<Client, HoleEntry> {
    match ev
    case Add(hole) =>
      if hole.client in s.entries then s.entries else s.entries[hole.client := HoleEntry(s.made, hole, now)]
    case Remove(client) => s.entries - {client}
    case RemoveEverything => map[]
    case Fire => s.entries
  }

  /** The holes not yet due at `now`. */
  function NotDue(entries: map<Client, HoleEntry>, now: real): map<Client, HoleEntry> {
    map c | c in entries && Deadline(entries[c]) > now :: entries[c]
  }

  lemma {:induction false} CaughtUpOpen(s: State, s1: State, now: real)
    requires Consistent(s) && Consistent(s1) && s1.list == s.list[Rank(s.list, now)..]
    ensures s1.entries == NotDue(s.entries, now)
  {
    SuffixOpen(s, s1, Rank(s.list, now), now);
    hide *;
    NotDueIs(s.entries, s1.entries, now);
  }

  lemma {:induction false} NotDueIs(entries: map<Client, HoleEntry>, entries': map<Client, HoleEntry>, now: real)
    requires forall c :: c in entries' <==> c in entries && Deadline(entries[c]) > now
    requires forall c :: c in entries' ==> c in entries && entries'[c] == entries[c]
    ensures entries' == NotDue(entries, now)
  {
  }

  /** What catching up leaves, while the firewall works. */
  lemma {:induction false} CatchingUpLeaves(env: Env, s: State, now: real)
    requires Consistent(s) && s.timer == None && Smooth(env, s, Rank(s.list, now))
    ensures CaughtUp(env, s, now).0.entries == NotDue(s.entries, now)
  {
    var s1 := CaughtUp(env, s, now).0;
    SmoothShows(env, s, Rank(s.list, now));
    hide *;
    CatchingUp(env, s, now);
    PartsOfValid(env, s1);
    CaughtUpOpen(s, s1, now);
  }

  lemma {:induction false} RemoveLeaves(env: Env, s: State, client: Client, now: real)
    requires Valid(env, s) && client in s.entries && !BehindItsEqual(s, client)
    requires Smooth(env, s, Needs(env, s, Remove(client), now))
    ensures RemovedOne(env, s, client, now).0.entries ==
      if IsHead(s, client) then NotDue(s.entries - {client}, now) else s.entries - {client}
  {
    PartsOfValid(env, s);
    hide Valid, Shows, Smooth, Consistent, Armed, BehindItsEqual, RemovedOne, Removed, CaughtUp, NotDue;
    var i := PlaceOf(s, client);
    BehindMeans(s, i);
    if i == 0 {
      var n := Rank(s.list[1..], now);
      SmoothSplits(env, s, s, 1, n);
      var s1 := HeadLeads(env, s, now);
      SmoothSplits(env, s, s1, 1, n);
      CatchingUpLeaves(env, s1, now);
    } else {
      var s1 := RemovedIs(env, s, i);
      LaterGoes(env, s, i, now, s1);
    }
  }

  lemma {:induction false} PutInEntries(env: Env, s: State, hole: Hole, now: real)
    ensures PutIn(env, s, hole, now).entries == s.entries[hole.client := HoleEntry(s.made, hole, now)]
  {
  }

  lemma {:induction false} AddLeaves(env: Env, s: State, hole: Hole, now: real)
    requires Valid(env, s) && hole.client !in s.entries && Smooth(env, s, 1 + ClosesOnAdd(env, s, hole, now))
    ensures Added(env, s, hole, now).0.entries ==
      var entries := s.entries[hole.client := HoleEntry(s.made, hole, now)];
      if Earliest(env, s, hole, now) then NotDue(entries, now) else entries
  {
    var s2 := PutIn(env, s, hole, now);
    hide *;
    PartsOfValid(env, s);
    ClosesWhat(env, s, hole, now);
    PutInShows(env, s, hole, now);
    SmoothSplits(env, s, s2, 1, ClosesOnAdd(env, s, hole, now));
    AddedIs(env, s, hole, now);
    PutInEntries(env, s, hole, now);
    PutInConsistent(env, s, hole, now);
    if Earliest(env, s, hole, now) {
      SetTimer(s2, None);
      SmoothWithout(env, s2, Rank(s2.list, now));
      CatchingUpLeaves(env, s2.(timer := None), now);
    }
  }

  lemma {:induction false} FireLeaves(env: Env, s: State, now: real)
    requires Valid(env, s) && s.timer.Some? && s.timer.value <= now && Smooth(env, s, Rank(s.list, now))
    ensures Fired(env, s, now).0.entries == NotDue(s.entries, now)
  {
    hide *;
    FiringClosesOverdue(env, s, now);
    PartsOfValid(env, s);
    PartsOfValid(env, Fired(env, s, now).0);
    CaughtUpOpen(s, Fired(env, s, now).0, now);
  }

  /** What a step leaves open: what it is meant to leave open, less the overdue holes if it sets the timer
      anew.  No step closes a hole for another reason. */
  lemma {:induction false} WhoStaysOpen(env: Env, s: State, ev: Event, now: real)
    requires Valid(env, s) && Legal(s, ev, now) && !Breaks(env, s, ev, now)
    ensures Next(env, s, ev, now).entries ==
      if Reschedules(env, s, ev, now) then NotDue(Intended(s, ev, now), now) else Intended(s, ev, now)
  {
    PartsOfValid(env, s);
    hide Valid, Breaks, Shows, Smooth, Consistent, Added, RemovedOne, RemovedAll, Fired, BehindItsEqual, OneDueFirst,
        ClosesOnAdd;
    BreaksWhen(env, s, ev, now);
    match ev
    case Add(hole) =>
      if hole.client !in s.entries { AddLeaves(env, s, hole, now); } else { AlreadyThere(env, s, hole, now); }
    case Remove(client) =>
      if client in s.entries { RemoveLeaves(env, s, client, now); } else { NotThere(env, s, client, now); }
    case RemoveEverything => RemovingAllEmpties(env, s, now);
    case Fire => FireLeaves(env, s, now);
  }

  lemma {:induction false} NotThere(env: Env, s: State, client: Client, now: real)
    requires client !in s.entries
    ensures RemovedOne(env, s, client, now) == (s, HoleError) && !IsHead(s, client)
  {
  }

  /** Nobody asks for `c` to be removed. */
  predicate LeavesAlone(ev: Event, c: Client) {
    ev != Remove(c) && !ev.RemoveEverything?
  }

  /** The last step of a run in which nothing breaks. */
  lemma {:induction false} LastStep(env: Env, s: State, evs: seq<Timed>)
    requires Valid(env, s) && LegalRun(env, s, evs) && NothingBreaks(env, s, evs) && evs != []
    ensures var n := |evs| - 1; var before := Run(env, s, evs[..n]);
      && LegalRun(env, s, evs[..n]) && NothingBreaks(env, s, evs[..n]) && Valid(env, before)
      && Legal(before, evs[n].event, evs[n].now) && !Breaks(env, before, evs[n].event, evs[n].now)
      && Run(env, s, evs) == Next(env, before, evs[n].event, evs[n].now)
  {
    RunStaysValidIff(env, s, evs[..|evs| - 1]);
    hide Valid, Legal, Breaks, Next;
  }

  lemma {:induction false} NoStep(env: Env, s: State)
    ensures Run(env, s, []) == s
  {
  }

  /** A step that leaves a client alone before its deadline leaves its hole open. */
  lemma {:induction false} StaysIn(s: State, ev: Event, now: real, c: Client)
    requires c in s.entries && now < Deadline(s.entries[c]) && LeavesAlone(ev, c)
    ensures c in Intended(s, ev, now) && Intended(s, ev, now)[c] == s.entries[c]
    ensures c in NotDue(Intended(s, ev, now), now) && NotDue(Intended(s, ev, now), now)[c] == s.entries[c]
  {
  }

  /** No hole is closed before its deadline unless somebody asks for it. */
  lemma {:induction false} NeverEarly(env: Env, s: State, evs: seq<Timed>, c: Client)
    requires Valid(env, s) && LegalRun(env, s, evs) && NothingBreaks(env, s, evs) && c in s.entries
    requires forall k :: 0 <= k < |evs| ==> evs[k].now < Deadline(s.entries[c]) && LeavesAlone(evs[k].event, c)
    ensures c in Run(env, s, evs).entries && Run(env, s, evs).entries[c] == s.entries[c]
  {
    hide *;
    if evs != [] {
      var n := |evs| - 1;
      LastStep(env, s, evs);
      NeverEarly(env, s, evs[..n], c);
      WhoStaysOpen(env, Run(env, s, evs[..n]), evs[n].event, evs[n].now);
      StaysIn(Run(env, s, evs[..n]), evs[n].event, evs[n].now, c);
    } else {
      NoStep(env, s);
    }
  }

  /** Some open hole is overdue exactly when the timer is: a timer that fires in time leaves none. */
  lemma {:induction false} NeverLate(env: Env, s: State, now: real)
    requires Valid(env, s)
    ensures (exists c :: c in s.entries && Deadline(s.entries[c]) <= now) <==> s.timer.Some? && s.timer.value <= now
  {
    PartsOfValid(env, s);
    hide Valid, Shows, Consistent;
    if s.timer.Some? && s.timer.value <= now {
      EntryOf(s, 0);
      assert Deadline(s.entries[s.list[0].hole.client]) <= now;
    }
    if c :| c in s.entries && Deadline(s.entries[c]) <= now {
      var j := PlaceOf(s, c);
      Later(s, 0, j);
    }
  }

  // ---------------------------------------------------------------------------- the chain and the holes

  /** The firewall's chain in a table. */
  ghost predicate ChainIs(rs: Ruleset, rules: seq<Rule>) {
    var k := Lookup(rs, CATTIVO);
    k.Some? && rs[k.value].rules == rules
  }

  /** In every valid state the table in force is the host's with one chain and one jump more, and the chain is
      authenticator, local, a log and an accept rule for each recorded source, and tproxy; and the recorded
      sources are the addresses of the open holes, as often as there are holes. */
  lemma {:induction false} ChainMirrorsHoles(env: Env, s: State)
    requires Valid(env, s)
    ensures EnvOk(env) && s.wall.inForce == s.wall.edited == Installed(env.host, env.setup, s.rules)
    ensures ChainIs(s.wall.inForce,
      [AuthenticatorRule(env.setup), LocalTrafficRule()] + Pairs(env.setup, s.rules) + [TproxyRule(env.setup)])
    ensures multiset(s.rules) == multiset(Map(s.list, AddressOf())) && |s.rules| == |s.list|
    ensures forall a :: a in s.rules <==> exists c :: c in s.entries && c.address == a
  {
    PartsOfValid(env, s);
    ShownTable(env, s.wall, s.rules);
    InstalledPlaces(env.host, env.setup, s.rules);
    RulesCount(s);
    hide Host, SetupOk, Installed, Lookup, Pairs, NamesDiffer, ExtensionsClear;
    forall a ensures a in s.rules <==> exists c :: c in s.entries && c.address == a {
      RuleIffHole(s, a);
    }
  }

  lemma {:induction false} RuleIffHole(s: State, a: Address)
    requires Consistent(s)
    ensures a in s.rules <==> exists c :: c in s.entries && c.address == a
  {
    var addresses := Map(s.list, AddressOf());
    assert a in s.rules <==> a in multiset(addresses);
    if c :| c in s.entries && c.address == a {
      var j := PlaceOf(s, c);
      assert addresses[j] == a;
    }
    if a in addresses {
      var j :| 0 <= j < |addresses| && addresses[j] == a;
      EntryOf(s, j);
    }
  }

  /** Where runs start: the firewall has just been initialized. */
  lemma {:induction false} StartsValid(env: Env, wall: Table)
    requires Shows(env, wall, [])
    ensures Valid(env, Initially(wall))
  {
    hide Shows;
  }

  // ---------------------------------------------------------------------------- holes due at the same time

  const A := Client(1, 0)
  const B := Client(2, 0)
  const HOLE_A := HoleEntry(0, Hole(A, 10.0), 0.0)
  const HOLE_B := HoleEntry(1, Hole(B, 10.0), 0.0)

  /** Two holes opened at the same time for the same time. */
  function TwoEqual(): seq<Timed> { [Timed(0.0, Add(Hole(A, 10.0))), Timed(0.0, Add(Hole(B, 10.0)))] }

  /** Table operations never fail from outside. */
  ghost predicate NoFaults(env: Env) { forall n :: !env.fault(n) }

  lemma {:induction false} NoFaultsSmooth(env: Env, s: State, n: nat)
    requires NoFaults(env)
    ensures Smooth(env, s, n) <==> Shows(env, s.wall, s.rules)
  {
    hide Shows;
  }

  lemma {:induction false} PutInLast(env: Env, s: State, hole: Hole, now: real)
    requires Rank(s.list, now + hole.expiration) == |s.list|
    ensures var s1 := PutIn(env, s, hole, now); var e := HoleEntry(s.made, hole, now);
      && s1 == State(s.entries[hole.client := e], s.list + [e], s.timer, s1.wall, [hole.client.address] + s.rules,
                     s.made + 1)
      && (Earliest(env, s, hole, now) <==> s.list == [])
  {
    var e := HoleEntry(s.made, hole, now);
    assert InsertAt(s.list, |s.list|, e) == s.list + [e];
    hide ClientAdded, Rank;
  }

  /** Opening the first hole. */
  lemma {:induction false} FirstAlone(env: Env, s: State, hole: Hole)
    requires s == Initially(s.wall) && Shows(env, s.wall, []) && NoFaults(env) && hole.expiration > 0.0
    ensures var s1 := Next(env, s, Add(hole), 0.0); var e := HoleEntry(0, hole, 0.0);
      && s1 == State(map[hole.client := e], [e], Some(hole.expiration), s1.wall, [hole.client.address], 1)
      && Shows(env, s1.wall, [hole.client.address])
  {
    NoFaultsSmooth(env, s, 1);
    PutInShows(env, s, hole, 0.0);
    PutInLast(env, s, hole, 0.0);
    hide Shows, ClientAdded, NoFaults, Smooth, PutIn, Rank, Earliest;
    AddedIs(env, s, hole, 0.0);
    assert [hole.client.address] + [] == [hole.client.address];
    assert [] + [HoleEntry(0, hole, 0.0)] == [HoleEntry(0, hole, 0.0)];
  }

  /** Opening a hole that is due after all others, or together with the last one. */
  lemma {:induction false} OpenedLast(env: Env, s: State, hole: Hole, now: real)
    requires Shows(env, s.wall, s.rules) && NoFaults(env) && hole.client !in s.entries && s.list != []
    requires Rank(s.list, now + hole.expiration) == |s.list|
    ensures var s1 := Next(env, s, Add(hole), now); var e := HoleEntry(s.made, hole, now);
      && s1 == State(s.entries[hole.client := e], s.list + [e], s.timer, s1.wall, [hole.client.address] + s.rules,
                     s.made + 1)
      && Shows(env, s1.wall, s1.rules)
  {
    NoFaultsSmooth(env, s, 1);
    PutInShows(env, s, hole, now);
    PutInLast(env, s, hole, now);
    hide Shows, ClientAdded, NoFaults, Smooth, Rank, PutIn, Earliest;
    AddedIs(env, s, hole, now);
  }

  /** The two holes are open, and everything agrees. */
  lemma {:induction false} TwoEqualOpen(env: Env, wall: Table) returns (s: State)
    requires Shows(env, wall, []) && NoFaults(env)
    ensures s == Run(env, Initially(wall), TwoEqual())
    ensures s == State(map[A := HOLE_A, B := HOLE_B], [HOLE_A, HOLE_B], Some(10.0), s.wall, [2, 1], 2)
    ensures Shows(env, s.wall, [2, 1])
  {
    hide Shows, Next, NoFaults;
    var s0 := Initially(wall);
    FirstAlone(env, s0, Hole(A, 10.0));
    var s1 := Next(env, s0, Add(Hole(A, 10.0)), 0.0);
    assert Rank([HOLE_A], 10.0) == 1 && [HOLE_A] + [HOLE_B] == [HOLE_A, HOLE_B] && [2] + [1] == [2, 1];
    OpenedLast(env, s1, Hole(B, 10.0), 0.0);
    s := Next(env, s1, Add(Hole(B, 10.0)), 0.0);
    var evs := TwoEqual();
    assert evs[..1] == [evs[0]] && evs[..1][..0] == [];
    assert Run(env, s0, []) == s0;
    assert Run(env, s0, evs[..1]) == s1;
  }

  /** One of two equal removals: the list loses the other hole. */
  lemma {:induction false} SecondRemoved(env: Env, s: State)
    requires s == State(map[A := HOLE_A, B := HOLE_B], [HOLE_A, HOLE_B], Some(10.0), s.wall, [2, 1], 2)
    requires Shows(env, s.wall, [2, 1]) && NoFaults(env)
    ensures var s1 := RemovedOne(env, s, B, 1.0).0;
      && RemovedOne(env, s, B, 1.0).1 == Done
      && s1 == State(map[A := HOLE_A], [HOLE_B], Some(10.0), s1.wall, [1], 2) && Shows(env, s1.wall, [1])
  {
    assert FirstEqual([HOLE_A, HOLE_B], 10.0) == Some(0) && FirstRule([2, 1], 2) == Some(0);
    assert map[A := HOLE_A, B := HOLE_B] - {B} == map[A := HOLE_A];
    assert RemoveAt([HOLE_A, HOLE_B], 0) == [HOLE_B] && RemoveAt([2, 1], 0) == [1];
    NoFaultsSmooth(env, s, 1);
    hide Shows, ClientRemoved, NoFaults, Smooth, Removed, FirstEqual, FirstRule;
    RemovedAs(env, s, B, 0, 0);
    NotHeadGoes(env, s, B, 1.0);
  }

  /** The timer fires on a hole that is gone from the dictionary. */
  lemma {:induction false} FiresInVain(env: Env, s: State, now: real)
    requires s.list != [] && s.list[0].hole.client !in s.entries
    ensures Fired(env, s, now) == (s.(timer := None), HoleError)
  {
  }

  /** Two holes due at the same time, the later one removed: the other one is then never closed.  When the
      timer fires, it meets the hole that is gone, and is not armed again; the client is still let through. */
  lemma {:induction false} EqualDeadlinesLeak(env: Env, wall: Table)
    requires Shows(env, wall, []) && NoFaults(env)
    ensures var s := Run(env, Initially(wall), TwoEqual() + [Timed(1.0, Remove(B)), Timed(10.0, Fire)]);
      A in s.entries && Deadline(s.entries[A]) == 10.0 && s.timer == None && Shows(env, s.wall, [1])
  {
    hide Shows, NoFaults, TwoEqual, RemovedOne, Fired, Run;
    var s2 := TwoEqualOpen(env, wall);
    SecondRemoved(env, s2);
    FiresInVain(env, RemovedOne(env, s2, B, 1.0).0, 10.0);
    TwoMore(env, Initially(wall), TwoEqual(), Timed(1.0, Remove(B)), Timed(10.0, Fire));
  }

  lemma {:induction false} TwoMore(env: Env, s: State, evs: seq<Timed>, e: Timed, f: Timed)
    ensures Run(env, s, evs + [e, f]) == Next(env, Next(env, Run(env, s, evs), e.event, e.now), f.event, f.now)
  {
    hide Next;
    assert (evs + [e, f])[..|evs| + 1] == evs + [e] && (evs + [e])[..|evs|] == evs;
  }

  /** Two holes due first at the same time, all removed: the holes and their rules are gone, but the timer stays
      armed, and when it fires it raises IndexError on the empty list. */
  lemma {:induction false} RemoveAllLeavesTimer(env: Env, wall: Table)
    requires Shows(env, wall, []) && NoFaults(env)
    ensures var s := Run(env, Initially(wall), TwoEqual());
      var (s1, o) := RemovedAll(env, s, s.list, 1.0);
      && o == Done && s1.entries == map[] && s1.list == [] && s1.timer == Some(10.0) && Shows(env, s1.wall, [])
      && Fired(env, s1, 10.0).1 == IndexError
  {
    hide Shows, NoFaults, TwoEqual, Run, RemovedOne;
    var s := TwoEqualOpen(env, wall);
    SecondRemoved(env, s);
    var s1 := RemovedOne(env, s, B, 1.0).0;
    LastRemoved(env, s1);
    var all := [HOLE_A, HOLE_B];
    assert all[..1] == [HOLE_A] && all[..1][..0] == [];
    assert RemovedAll(env, RemovedOne(env, s1, A, 1.0).0, [], 1.0) == RemovedOne(env, s1, A, 1.0);
    assert RemovedAll(env, s1, [HOLE_A], 1.0) == RemovedOne(env, s1, A, 1.0);
  }

  lemma {:induction false} LastRemoved(env: Env, s: State)
    requires s == State(map[A := HOLE_A], [HOLE_B], Some(10.0), s.wall, [1], 2)
    requires Shows(env, s.wall, [1]) && NoFaults(env)
    ensures var s1 := RemovedOne(env, s, A, 1.0).0;
      && RemovedOne(env, s, A, 1.0).1 == Done
      && s1 == State(map[], [], Some(10.0), s1.wall, [], 2) && Shows(env, s1.wall, [])
  {
    assert FirstEqual([HOLE_B], 10.0) == Some(0) && FirstRule([1], 1) == Some(0);
    assert map[A := HOLE_A] - {A} == map[];
    assert RemoveAt([HOLE_B], 0) == [] && RemoveAt([1], 0) == [];
    NoFaultsSmooth(env, s, 1);
    hide Shows, ClientRemoved, NoFaults, Smooth, Removed, FirstEqual, FirstRule;
    RemovedAs(env, s, A, 0, 0);
    NotHeadGoes(env, s, A, 1.0);
  }
}
