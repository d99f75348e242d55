/** The firewall as clients see it: a question is answered at once when the client has a hole, and by a lookup
    in the client list otherwise.  Anything may happen between a lookup's start and its completion. */
module Firewalls {
  import opened Seqs
  import opened Rulesets
  import opened Mangle
  import opened Wall
  import opened Items
  import opened Lifecycle
  import opened Schedule
  import opened ScheduleRuns
  import opened HoleTables
  import Leftovers

  /** What the client list says of a client. */
  datatype ClientStatus = ClientStatus(client: Client, loginTime: real, expiration: real)

  /** How long the client may stay, seen at `now`. */
  function TimeAllowed(status: ClientStatus, now: real): real { status.expiration - (now - status.loginTime) }

  predicate Eligible(status: ClientStatus, now: real) {
    status.expiration > 0.0 && TimeAllowed(status, now) > 0.0
  }

  function HoleFor(status: ClientStatus, now: real): Hole { Hole(status.client, TimeAllowed(status, now)) }

  /** Opens a hole for an eligible client; the answer is missing when an exception is raised. */
  function HoleAdded(env: Env, s: State, status: ClientStatus, now: real): (State, Option<bool>) {
    if !Eligible(status, now) then (s, Some(false))
    else
      var (s1, o) := Added(env, s, HoleFor(status, now), now);
      (s1, if o == Done then Some(true) else None)
  }

  /** A completed lookup; an exception turns into a refusal. */
  function Completed(env: Env, s: State, status: ClientStatus, now: real): (State, bool) {
    var (s1, answer) := HoleAdded(env, s, status, now);
    (s1, answer == Some(true))
  }

  /** Removes a client's hole.  That there is no hole is answered too when catching up comes upon one that is in the
      list and not in the dictionary. */
  function HoleRemoved(env: Env, s: State, client: Client, now: real): (State, Option<bool>) {
    var (s1, o) := RemovedOne(env, s, client, now);
    (s1, if o == Done then Some(true) else if o == HoleError then Some(false) else None)
  }

  // ------------------------------------------------------------------------------- what answers mean

  /** In a valid state a removal answers no exactly if the client has no hole, and nothing changes then; it answers yes
      only if the hole is gone. */
  lemma {:induction false} RemovalTellsTruth(env: Env, s: State, client: Client, now: real)
    requires Valid(env, s)
    ensures var (s1, removed) := HoleRemoved(env, s, client, now);
      && (removed == Some(false) <==> client !in s.entries) && (removed == Some(false) ==> s1 == s)
      && (!Breaks(env, s, Remove(client), now) && client in s.entries ==>
            removed == Some(true) && client !in s1.entries)
  {
    PartsOfValid(env, s);
    hide Valid, Shows, Armed, RemovedOne, Breaks;
    if client in s.entries {
      var i := PlaceOf(s, client);
      hide Consistent;
      RemovalEnds(env, s, client, i, now);
      if !Breaks(env, s, Remove(client), now) {
        WhoStaysOpen(env, s, Remove(client), now);
        NextRemoves(env, s, client, now);
      }
    } else {
      NotThere(env, s, client, now);
    }
  }


  /** What a completion does when the client is eligible and has no hole. */
  lemma {:induction false} CompletedIs(env: Env, s: State, status: ClientStatus, now: real)
    ensures !Eligible(status, now) || status.client in s.entries ==> Completed(env, s, status, now) == (s, false)
    ensures Eligible(status, now) ==>
      Completed(env, s, status, now) == (Added(env, s, HoleFor(status, now), now).0,
                                         Added(env, s, HoleFor(status, now), now).1 == Done)
  {
  }

  /** A completed lookup answers yes exactly if it opened a hole: the client had none, its time is not up, and the
      firewall works.  The hole is due exactly `expiration` after the login, however late the lookup completed.
      On the answer no nothing has changed, unless the firewall failed. */
  lemma {:induction false} AnswerTellsTruth(env: Env, s: State, status: ClientStatus, now: real)
    requires Valid(env, s)
    ensures var (s1, answer) := Completed(env, s, status, now);
      var wanted := status.client !in s.entries && status.expiration > 0.0
          && now < status.loginTime + status.expiration;
      var works := Smooth(env, s, 1 + ClosesOnAdd(env, s, HoleFor(status, now), now));
      && (answer <==> wanted && works)
      && (Valid(env, s1) <==> wanted ==> works)
      && (answer ==> status.client in s1.entries
                     && Deadline(s1.entries[status.client]) == status.loginTime + status.expiration)
      && (!wanted ==> s1 == s)
  {
    var hole := HoleFor(status, now);
    assert Eligible(status, now) <==> status.expiration > 0.0 && now < status.loginTime + status.expiration;
    CompletedIs(env, s, status, now);
    hide Valid, Added, NotDue, Smooth, Completed, Eligible, ClosesOnAdd, Earliest;
    if Eligible(status, now) && status.client !in s.entries {
      AddingKeepsValidIff(env, s, hole, now);
      if Smooth(env, s, 1 + ClosesOnAdd(env, s, hole, now)) {
        AddLeaves(env, s, hole, now);
        NewHoleStays(s, hole, now);
      }
    }
  }

  /** A client that has a hole is removed, or the firewall fails. */
  lemma {:induction false} RemovalEnds(env: Env, s: State, client: Client, i: nat, now: real)
    requires Valid(env, s) && i < |s.list| && s.list[i].hole.client == client
    ensures RemovedOne(env, s, client, now).1 == Done || RemovedOne(env, s, client, now).1 == FirewallError
    ensures !Breaks(env, s, Remove(client), now) ==> RemovedOne(env, s, client, now).1 == Done
  {
    PartsOfValid(env, s);
    EntryOf(s, i);
    BehindMeans(s, i);
    FirstEqualFound(s.list, i);
    hide *;
    BreaksWhen(env, s, Remove(client), now);
    RemoveNeeds(env, s, client, now);
    if i == 0 {
      HeadRemoved(env, s, now);
    } else {
      RemovedShape(env, s, client, FirstEqual(s.list, Deadline(s.list[i])).value);
      NotHeadGoes(env, s, client, now);
      if !Breaks(env, s, Remove(client), now) { var s1 := RemovedIs(env, s, i); }
    }
  }

  lemma {:induction false} FirstEqualFound(list: seq<HoleEntry>, i: nat)
    requires i < |list|
    ensures FirstEqual(list, Deadline(list[i])).Some?
  {
  }

  lemma {:induction false} RemoveNeeds(env: Env, s: State, client: Client, now: real)
    requires client in s.entries
    ensures Needs(env, s, Remove(client), now) == (if IsHead(s, client) then 1 + Rank(s.list[1..], now) else 1)
    ensures Tied(s, Remove(client)) <==> BehindItsEqual(s, client)
  {
    hide BehindItsEqual;
  }

  lemma {:induction false} NewHoleStays(s: State, hole: Hole, now: real)
    requires hole.expiration > 0.0
    ensures var entries := s.entries[hole.client := HoleEntry(s.made, hole, now)];
      && Deadline(entries[hole.client]) == now + hole.expiration
      && hole.client in NotDue(entries, now) && NotDue(entries, now)[hole.client] == entries[hole.client]
  {
  }

  /** When there is no place in the table for the client's rules, or a table operation fails, the answer is no, but
      the client stays in the dictionary, and nothing waits to close a hole for it.  The table in force is as it was.
      Without a place nothing has been edited; otherwise the edits made before the failure stay in the snapshot.  This
      holds of any table, as before the firewall has been initialized. */
  lemma {:induction false} RefusedRuleLeavesClient(env: Env, s: State, status: ClientStatus, now: real)
    requires Consistent(s) && Eligible(status, now) && status.client !in s.entries && WellFormed(s.wall.edited)
    requires !HasRoom(s.wall.edited) || !FaultFree(env, s.wall.ops, 3)
    ensures var (s1, answer) := Completed(env, s, status, now);
      && !answer && status.client in s1.entries && s1.rules == s.rules && s1.list == s.list && s1.timer == s.timer
      && !Consistent(s1) && s1.wall.inForce == s.wall.inForce
      && (!HasRoom(s.wall.edited) ==> s1.wall.edited == s.wall.edited)
      && (forall k :: HasRoom(s.wall.edited) && FailsAt(env, s.wall.ops, k) ==>
            s1.wall.edited == EditedUpTo(s.wall.edited, env.setup, status.client.address, k))
  {
    hide *;
    var a := status.client.address;
    CompletedIs(env, s, status, now);
    HoleIsFor(status, now);
    AddingSucceedsIff(env, s.wall, a);
    RefusedAddBreaks(env, s, HoleFor(status, now), now);
    RefusedLeaves(env, s.wall, a, 0);
    forall k | HasRoom(s.wall.edited) && FailsAt(env, s.wall.ops, k)
      ensures ClientAdded(env, s.wall, a).0.edited == EditedUpTo(s.wall.edited, env.setup, a, k)
    {
      RefusedLeaves(env, s.wall, a, k);
    }
  }

  /** A client is refused because its commit fails, and the next client is let in: the commit made for the second one
      lets the first one through as well, and nothing ends that, for no list holds it and no timer waits for it. */
  lemma {:induction false} RefusedClientLetThrough(env: Env, wall: Table, first: ClientStatus, second: ClientStatus,
                                                   now: real)
    requires Shows(env, wall, []) && Eligible(first, now) && Eligible(second, now) && first.client != second.client
    requires FailsAt(env, wall.ops, 2) && FaultFree(env, wall.ops + 3, 3)
    ensures var (s1, answer1) := Completed(env, Initially(wall), first, now);
      var (s2, answer2) := Completed(env, s1, second, now);
      var a, b := first.client.address, second.client.address;
      && !answer1 && answer2 && first.client in s2.entries && second.client in s2.entries
      && |s2.list| == 1 && s2.list[0].hole.client == second.client
      && s1.wall.inForce == Installed(env.host, env.setup, []) && s1.wall.edited == Installed(env.host, env.setup, [a])
      && s2.wall.inForce == s2.wall.edited == Installed(env.host, env.setup, [b, a])
  {
    var a, b := first.client.address, second.client.address;
    hide *;
    CompletedIs(env, Initially(wall), first, now);
    HoleIsFor(first, now);
    HoleIsFor(second, now);
    CommitRefused(env, wall, a);
    NewlyMade(wall);
    RefusedAddBreaks(env, Initially(wall), HoleFor(first, now), now);
    Leftovers.RefusedAddLeaves(env, Initially(wall), HoleFor(first, now), now);
    var s1 := Added(env, Initially(wall), HoleFor(first, now), now).0;
    CompletedIs(env, s1, second, now);
    LetInAfterwards(env, s1.wall, a, b);
    SecondAlone(env, s1, second, now);
  }

  lemma {:induction false} NewlyMade(wall: Table)
    ensures Consistent(Initially(wall)) && Initially(wall).entries == map[] && Initially(wall).wall == wall
    ensures Initially(wall).list == [] && Initially(wall).timer == None
  {
  }

  /** Both edits are made, and the commit fails. */
  lemma {:induction false} CommitRefused(env: Env, t: Table, a: Address)
    requires Shows(env, t, []) && FailsAt(env, t.ops, 2)
    ensures EnvOk(env) && Lookup(env.host, PREROUTING).Some?
    ensures ClientAdded(env, t, a) ==
      (Table(Installed(env.host, env.setup, [a]), Installed(env.host, env.setup, []), t.ops + 3), false)
  {
    ShownTable(env, t, []);
    hide *;
    ShownParts(env, t);
    ClientsComeAndGo(env.host, env.setup, [], a);
    var rs1 := AddHalf(t.edited, env.setup, a, Installed(env.host, env.setup, [a] + []));
    AddedHalfway(env, t, a, rs1, Installed(env.host, env.setup, [a] + []), 2);
    UpToTwo(t.edited, env.setup, a, Installed(env.host, env.setup, [a] + []));
    assert [a] + [] == [a];
    ShownInForce(env, t);
  }

  lemma {:induction false} UpToTwo(rs: Ruleset, s: Setup, a: Address, rs2: Ruleset)
    requires AddClientTo(rs, s, a) == Ok(rs2)
    ensures EditedUpTo(rs, s, a, 2) == rs2
  {
    hide AddClientTo;
  }

  lemma {:induction false} ShownInForce(env: Env, t: Table)
    requires Shows(env, t, []) && Lookup(env.host, PREROUTING).Some?
    ensures t.inForce == Installed(env.host, env.setup, []) && EnvOk(env)
  {
    hide Installed, Host, SetupOk;
  }

  lemma {:induction false} LetInAfterwards(env: Env, t: Table, a: Address, b: Address)
    requires EnvOk(env) && Lookup(env.host, PREROUTING).Some? && t.edited == Installed(env.host, env.setup, [a])
    requires FaultFree(env, t.ops, 3)
    ensures ClientAdded(env, t, b) ==
      (Table(Installed(env.host, env.setup, [b, a]), Installed(env.host, env.setup, [b, a]), t.ops + 3), true)
  {
    EnvParts(env);
    hide *;
    ClientsComeAndGo(env.host, env.setup, [a], b);
    assert [b] + [a] == [b, a];
    WithoutFaults(env, t, b);
  }

  lemma {:induction false} EnvParts(env: Env)
    requires EnvOk(env)
    ensures Host(env.host) && SetupOk(env.setup)
  {
    hide Host, SetupOk;
  }

  /** The hole of the second client is the only one in the list. */
  lemma {:induction false} SecondAlone(env: Env, s: State, status: ClientStatus, now: real)
    requires s.list == [] && status.client !in s.entries && Eligible(status, now)
    requires ClientAdded(env, s.wall, status.client.address).1
    ensures var (s1, o) := Added(env, s, HoleFor(status, now), now);
      && o == Done && s1.entries.Keys == s.entries.Keys + {status.client}
      && |s1.list| == 1 && s1.list[0].hole.client == status.client
      && s1.wall == ClientAdded(env, s.wall, status.client.address).0
  {
    var hole := HoleFor(status, now);
    AddedIs(env, s, hole, now);
    assert InsertAt([], 0, HoleEntry(s.made, hole, now)) == [HoleEntry(s.made, hole, now)];
    hide ClientAdded, Removed;
  }

  lemma {:induction false} HoleIsFor(status: ClientStatus, now: real)
    ensures HoleFor(status, now).client == status.client
  {
  }

  // ----------------------------------------------------------------------------------- interleavings

  /** Lookups that are under way, by client asked for; the holes; and the answers given so far. */
  datatype World = World(holes: State, pending: seq<Client>, answers: seq<(Client, bool)>)

  /** `Ask` is a question; `Answer` and `Fail` end the lookup at place `i`; `Leave` and `Expire` are calls of the hole
      table; `Clean` closes all holes and takes the firewall down; `Install` sets it up, as happens some time after
      cleaning when it is initialized. */
  datatype Step =
    | Ask(client: Client)
    | Answer(i: nat, status: ClientStatus)
    | Fail(i: nat)
    | Leave(client: Client)
    | Clean
    | Install
    | Expire

  predicate CanHappen(w: World, step: Step, now: real) {
    match step
    case Answer(i, _) => i < |w.pending|
    case Fail(i) => i < |w.pending|
    case Expire => Legal(w.holes, Fire, now)
    case _ => true
  }

  /** All holes are closed, and then the firewall is taken down unless an exception got in between. */
  function CleanedUp(env: Env, s: State, now: real): State {
    var (s1, o) := RemovedAll(env, s, s.list, now);
    if o == Done then s1.(wall := TakenDown(env, s1.wall)) else s1
  }

  /** The calls of the hole table that a step makes, if it makes any but those of cleaning. */
  function EventOf(step: Step, now: real): Option<Event> {
    match step
    case Answer(_, status) =>
      if Eligible(status, now) then Some(Add(HoleFor(status, now))) else None
    case Leave(client) => Some(Remove(client))
    case Expire => Some(Fire)
    case _ => None
  }

  function Happens(env: Env, w: World, step: Step, now: real): World
    requires CanHappen(w, step, now)
  {
    match step
    case Ask(client) =>
      if client in w.holes.entries then w.(answers := w.answers + [(client, true)])
      else w.(pending := w.pending + [client])
    case Answer(i, status) =>
      var (holes, answer) := Completed(env, w.holes, status, now);
      World(holes, RemoveAt(w.pending, i), w.answers + [(w.pending[i], answer)])
    case Fail(i) => World(w.holes, RemoveAt(w.pending, i), w.answers + [(w.pending[i], false)])
    case Leave(client) => w.(holes := RemovedOne(env, w.holes, client, now).0)
    case Clean => w.(holes := CleanedUp(env, w.holes, now))
    case Install => w.(holes := w.holes.(wall := SetUp(env, w.holes.wall).0))
    case Expire => w.(holes := Fired(env, w.holes, now).0)
  }

  /** A step changes the holes as its call of the hole table does, or not at all; cleaning and installing apart. */
  lemma {:induction false} HappensIsNext(env: Env, w: World, step: Step, now: real)
    requires CanHappen(w, step, now)
    ensures Happens(env, w, step, now).holes == match EventOf(step, now)
      case Some(ev) => Next(env, w.holes, ev, now)
      case None =>
        if step.Clean? then CleanedUp(env, w.holes, now)
        else if step.Install? then w.holes.(wall := SetUp(env, w.holes.wall).0) else w.holes
    ensures EventOf(step, now).Some? ==> Legal(w.holes, EventOf(step, now).value, now)
  {
    hide Added, RemovedOne, CleanedUp, Fired, SetUp;
  }

  // --------------------------------------------------------------------------- up, or down and empty

  /** The firewall is not installed, and there are no holes. */
  ghost predicate Down(env: Env, s: State) {
    s == Initially(s.wall).(made := s.made) && AtRest(env, s.wall)
  }

  /** Dictionary, list, table and timer agree, with the firewall installed, or else not. */
  ghost predicate InAgreement(env: Env, s: State) { Valid(env, s) || Down(env, s) }

  /** The chain is there. */
  predicate IsUp(s: State) { Lookup(s.wall.edited, CATTIVO).Some? }

  /** What breaks agreement: letting a client in while the chain is not there; what breaks the scheduler; a table
      operation that fails half-way through taking down or setting up. */
  ghost predicate StepBreaks(env: Env, w: World, step: Step, now: real) {
    match step
    case Answer(_, status) =>
      Eligible(status, now) && (!IsUp(w.holes) || Breaks(env, w.holes, Add(HoleFor(status, now)), now))
    case Leave(client) => Breaks(env, w.holes, Remove(client), now)
    case Expire => Breaks(env, w.holes, Fire, now)
    case Clean =>
      IsUp(w.holes) && (Breaks(env, w.holes, RemoveEverything, now)
                        || TakingDownFails(env, w.holes.wall.ops + 3 * |w.holes.list|))
    case Install => !IsUp(w.holes) && SettingUpFails(env, w.holes.wall.ops)
    case _ => false
  }

  lemma {:induction false} UpOrDown(env: Env, s: State)
    ensures Valid(env, s) ==> IsUp(s) && Shows(env, s.wall, s.rules)
    ensures Down(env, s) ==> !IsUp(s) && !Valid(env, s)
  {
    PartsOfValid(env, s);
    if Valid(env, s) {
      ShownTable(env, s.wall, s.rules);
      InstalledPlaces(env.host, env.setup, s.rules);
    }
    hide Installed, Consistent, Armed, WellFormed, ExtensionsClear, SetupOk;
  }

  /** In any run of the scheduler the chain is there, whatever fails. */
  lemma {:induction false} NextIsUp(env: Env, s: State, ev: Event, now: real)
    requires Valid(env, s)
    ensures !Down(env, Next(env, s, ev, now))
  {
    hide *;
    Leftovers.ValidStands(env, s);
    Leftovers.NobodyGiven(s, [Timed(now, ev)]);
    var s1, d := Next(env, s, ev, now), Leftovers.DeskOf(s);
    assert [Timed(now, ev)][0] == Timed(now, ev);
    var calls := Leftovers.NextCalls(env, s, ev, now, d, None);
    Leftovers.MadeMeans(env, s, s1, d, calls, None);
    StandingIsUp(env, s1, Leftovers.DeskAfter(env, d, calls));
  }

  lemma {:induction false} StandingIsUp(env: Env, s: State, d: Desk)
    requires Stands(env, s.wall, d)
    ensures !Down(env, s)
  {
    HoldingStands(env.host, env.setup, d.edited);
    UpOrDown(env, s);
    hide Holding, Valid, AtRest, WellFormed, ExtensionsClear, SetupOk, NamesDiffer;
  }

  lemma {:induction false} EventKeepsIff(env: Env, s: State, ev: Event, now: real)
    requires Valid(env, s) && Legal(s, ev, now)
    ensures InAgreement(env, Next(env, s, ev, now)) <==> !Breaks(env, s, ev, now)
  {
    hide Valid, Down, Next, Breaks, Legal;
    StepKeepsValidIff(env, s, ev, now);
    NextIsUp(env, s, ev, now);
  }

  /** Whether anything is in agreement does not depend on how many operations have been made. */
  lemma {:induction false} EmptyStates(env: Env, s: State, wall: Table)
    requires s == Initially(s.wall).(made := s.made)
    ensures Valid(env, s.(wall := wall)) <==> Shows(env, wall, [])
    ensures Down(env, s.(wall := wall)) <==> AtRest(env, wall)
    ensures forall now :: RemovedAll(env, s, s.list, now) == (s, Done)
  {
    PartsOfValid(env, s.(wall := wall));
    assert Consistent(s.(wall := wall)) && Armed(s.(wall := wall)) by { hide Shows; }
    hide Shows, AtRest, Consistent, Armed;
  }

  lemma {:induction false} OtherWall(env: Env, s: State, wall: Table)
    ensures !HolesAgree(s) ==> !InAgreement(env, s.(wall := wall))
  {
    PartsOfValid(env, s.(wall := wall));
    assert Consistent(s.(wall := wall)) <==> Consistent(s);
    assert Armed(s.(wall := wall)) <==> Armed(s);
    assert s == Initially(s.wall).(made := s.made) ==> Consistent(s) && Armed(s);
    hide Shows, AtRest, Consistent, Armed, Valid;
  }

  lemma {:induction false} ValidShows(env: Env, s: State)
    requires Valid(env, s) && s == Initially(s.wall).(made := s.made)
    ensures Shows(env, s.wall, [])
  {
    PartsOfValid(env, s);
    hide Shows, Consistent, Armed;
  }

  lemma {:induction false} CleanKeepsIff(env: Env, s: State, now: real)
    requires Valid(env, s)
    ensures InAgreement(env, CleanedUp(env, s, now))
       <==> !Breaks(env, s, RemoveEverything, now) && !TakingDownFails(env, s.wall.ops + 3 * |s.list|)
  {
    UpOrDown(env, s);
    hide *;
    BreaksEverything(env, s, now);
    CleanedUpIs(env, s, now);
    var s1 := RemovedAll(env, s, s.list, now).0;
    if !OneDueFirst(s) {
      RemovingAllCrosses(env, s, now);
      OtherWall(env, s1, s1.wall);
      OtherWall(env, s1, TakenDown(env, s1.wall));
    } else {
      RemovingAllEmpties(env, s, now);
      OtherWall(env, s1, s1.wall);
      OtherWall(env, s1, TakenDown(env, s1.wall));
      if Smooth(env, s, |s.list|) {
        ValidShows(env, s1);
        TakingDownIff(env, s1.wall);
        EmptyStates(env, s1, TakenDown(env, s1.wall));
        FailsWhen(env, s1.wall.ops);
        AgreementIs(env, s1.(wall := TakenDown(env, s1.wall)));
      }
    }
  }

  lemma {:induction false} AgreementIs(env: Env, s: State)
    ensures InAgreement(env, s) <==> Valid(env, s) || Down(env, s)
  {
    hide Valid, Down;
  }

  lemma {:induction false} FailsWhen(env: Env, ops: nat)
    ensures TakingDownFails(env, ops) <==> !FaultFree(env, ops, 4) && !(env.fault(ops) && env.fault(ops + 1))
    ensures SettingUpFails(env, ops) <==> !env.fault(ops) && !FaultFree(env, ops, 7)
  {
    hide FaultFree;
  }

  lemma {:induction false} BreaksEverything(env: Env, s: State, now: real)
    requires Shows(env, s.wall, s.rules)
    ensures Breaks(env, s, RemoveEverything, now) <==> !OneDueFirst(s) || !Smooth(env, s, |s.list|)
  {
    BreaksWhen(env, s, RemoveEverything, now);
    hide Shows, Smooth, OneDueFirst, Breaks;
  }

  lemma {:induction false} CleanedUpIs(env: Env, s: State, now: real)
    ensures var (s1, o) := RemovedAll(env, s, s.list, now);
      CleanedUp(env, s, now) == if o == Done then s1.(wall := TakenDown(env, s1.wall)) else s1
  {
    hide RemovedAll, TakenDown;
  }

  /** While the firewall is down. */
  lemma {:induction false} DownKeepsIff(env: Env, w: World, step: Step, now: real)
    requires Down(env, w.holes) && CanHappen(w, step, now)
    ensures InAgreement(env, Happens(env, w, step, now).holes) <==> !StepBreaks(env, w, step, now)
  {
    var s := w.holes;
    UpOrDown(env, s);
    DownParts(env, s);
    HappensIsNext(env, w, step, now);
    hide *;
    AgreementIs(env, s);
    NoEvent(step, now);
    WhenDown(env, w, step, now);
    match step
    case Answer(_, status) =>
      if Eligible(status, now) { RefusedWhileDown(env, s, HoleFor(status, now), now); }
    case Leave(client) => NotThere(env, s, client, now); NextRemoves(env, s, client, now);
    case Clean =>
      CleanedUpIs(env, s, now);
      NothingToTakeDown(env, s.wall);
      EmptyStates(env, s, TakenDown(env, s.wall));
      RestAgain(env, s.wall, s.wall.ops + 4);
      AgreementIs(env, s.(wall := TakenDown(env, s.wall)));
    case Install =>
      SettingUpIff(env, s.wall);
      FailsWhen(env, s.wall.ops);
      EmptyStates(env, s, SetUp(env, s.wall).0);
      AgreementIs(env, s.(wall := SetUp(env, s.wall).0));
    case _ =>
  }

  /** Over any interleaving of questions, completions, failures, removals, expiries, cleaning and installing:
      dictionary, list, table and timer agree after a step exactly if it is not a breaking one. */
  lemma {:induction false} StepAgreesIff(env: Env, w: World, step: Step, now: real)
    requires InAgreement(env, w.holes) && CanHappen(w, step, now)
    ensures InAgreement(env, Happens(env, w, step, now).holes) <==> !StepBreaks(env, w, step, now)
  {
    hide *;
    AgreementIs(env, w.holes);
    if Valid(env, w.holes) { UpKeepsIff(env, w, step, now); } else { DownKeepsIff(env, w, step, now); }
  }

  lemma {:induction false} MoreOps(env: Env, s: State, n: nat)
    ensures Valid(env, s) ==> Valid(env, s.(wall := s.wall.(ops := n)))
  {
    var s1 := s.(wall := s.wall.(ops := n));
    PartsOfValid(env, s);
    PartsOfValid(env, s1);
    assert Consistent(s) == Consistent(s1) && Armed(s) == Armed(s1);
    hide Consistent, Armed, Valid, Installed, EnvOk;
  }

  lemma {:induction false} NoEvent(step: Step, now: real)
    ensures step.Ask? || step.Fail? ==> EventOf(step, now) == None
    ensures step.Clean? || step.Install? ==> EventOf(step, now) == None
    ensures step.Answer? ==>
      EventOf(step, now) == if Eligible(step.status, now) then Some(Add(HoleFor(step.status, now))) else None
    ensures step.Leave? ==> EventOf(step, now) == Some(Remove(step.client))
    ensures step.Expire? ==> EventOf(step, now) == Some(Fire)
  {
    hide HoleFor, Eligible;
  }

  lemma {:induction false} WhenUp(env: Env, w: World, step: Step, now: real)
    requires IsUp(w.holes)
    ensures EventOf(step, now).Some? ==>
      (StepBreaks(env, w, step, now) <==> Breaks(env, w.holes, EventOf(step, now).value, now))
    ensures EventOf(step, now).None? && !step.Clean? ==> !StepBreaks(env, w, step, now)
    ensures step.Clean? ==>
      (StepBreaks(env, w, step, now) <==> Breaks(env, w.holes, RemoveEverything, now)
                                          || TakingDownFails(env, w.holes.wall.ops + 3 * |w.holes.list|))
  {
    hide Breaks, TakingDownFails, SettingUpFails, HoleFor, Eligible;
  }

  /** While the firewall is up. */
  lemma {:induction false} UpKeepsIff(env: Env, w: World, step: Step, now: real)
    requires Valid(env, w.holes) && CanHappen(w, step, now)
    ensures InAgreement(env, Happens(env, w, step, now).holes) <==> !StepBreaks(env, w, step, now)
  {
    var s := w.holes;
    hide *;
    UpOrDown(env, s);
    HappensIsNext(env, w, step, now);
    NoEvent(step, now);
    WhenUp(env, w, step, now);
    AgreementIs(env, s);
    if EventOf(step, now).Some? {
      EventKeepsIff(env, s, EventOf(step, now).value, now);
    } else if step.Clean? {
      CleanKeepsIff(env, s, now);
    } else if step.Install? {
      AlreadySetUp(env, s.wall, s.rules);
      MoreOps(env, s, s.wall.ops + 1);
      AgreementIs(env, s.(wall := SetUp(env, s.wall).0));
    }
  }

  lemma {:induction false} DownParts(env: Env, s: State)
    requires Down(env, s)
    ensures s == Initially(s.wall).(made := s.made) && AtRest(env, s.wall) && Consistent(s)
    ensures s.entries == map[] && s.list == [] && s.timer == None
    ensures WellFormed(s.wall.edited) && !HasRoom(s.wall.edited)
  {
    hide WellFormed, ExtensionsClear, SetupOk;
  }

  lemma {:induction false} WhenDown(env: Env, w: World, step: Step, now: real)
    requires !IsUp(w.holes) && w.holes.entries == map[] && w.holes.timer == None && CanHappen(w, step, now)
    ensures step.Answer? ==> (StepBreaks(env, w, step, now) <==> Eligible(step.status, now))
    ensures step.Install? ==> (StepBreaks(env, w, step, now) <==> SettingUpFails(env, w.holes.wall.ops))
    ensures !step.Answer? && !step.Install? ==> !StepBreaks(env, w, step, now)
    ensures !step.Expire?
  {
    hide SettingUpFails, TakingDownFails, HoleFor, Eligible, IsUp;
  }

  /** While the firewall is down a client that is let in stays in the dictionary. */
  lemma {:induction false} RefusedWhileDown(env: Env, s: State, hole: Hole, now: real)
    requires Down(env, s)
    ensures !InAgreement(env, Next(env, s, Add(hole), now))
  {
    DownParts(env, s);
    hide *;
    AddingSucceedsIff(env, s.wall, hole.client.address);
    RefusedAddBreaks(env, s, hole, now);
    var s1 := Added(env, s, hole, now).0;
    NextAdds(env, s, hole, now);
    PartsOfValid(env, s1);
    AgreementIs(env, s1);
    if Down(env, s1) { DownParts(env, s1); }
  }

  lemma {:induction false} NextAdds(env: Env, s: State, hole: Hole, now: real)
    ensures Next(env, s, Add(hole), now) == Added(env, s, hole, now).0
  {
    hide Added;
  }

  lemma {:induction false} NextRemoves(env: Env, s: State, client: Client, now: real)
    ensures Next(env, s, Remove(client), now) == RemovedOne(env, s, client, now).0
  {
    hide RemovedOne;
  }

  lemma {:induction false} RestAgain(env: Env, t: Table, n: nat)
    requires AtRest(env, t)
    ensures AtRest(env, t.(ops := n))
  {
    hide EnvOk;
  }

  // ------------------------------------------------------------------------------------- whole runs

  datatype Moment = Moment(now: real, step: Step)

  /** The worlds of a run; a step that cannot happen is skipped. */
  function WorldAfter(env: Env, w: World, run: seq<Moment>): World {
    if run == [] then w
    else
      var before := WorldAfter(env, w, run[..|run| - 1]);
      var m := run[|run| - 1];
      if CanHappen(before, m.step, m.now) then Happens(env, before, m.step, m.now) else before
  }

  ghost predicate RunBreaks(env: Env, w: World, run: seq<Moment>) {
    run != [] &&
      var before, m := WorldAfter(env, w, run[..|run| - 1]), run[|run| - 1];
      || RunBreaks(env, w, run[..|run| - 1])
      || (CanHappen(before, m.step, m.now) && StepBreaks(env, before, m.step, m.now))
  }

  /** In agreement after every step. */
  ghost predicate AgreesThroughout(env: Env, w: World, run: seq<Moment>) {
    InAgreement(env, WorldAfter(env, w, run).holes) && (run == [] || AgreesThroughout(env, w, run[..|run| - 1]))
  }

  /** Over any interleaving of questions, completions, failures, removals, expiries, cleaning and installing,
      dictionary, list, table and timer agree after every step exactly if no step was a breaking one. */
  lemma {:induction false} InterleavingsStayValid(env: Env, w: World, run: seq<Moment>)
    requires InAgreement(env, w.holes)
    ensures AgreesThroughout(env, w, run) <==> !RunBreaks(env, w, run)
  {
    hide InAgreement, CanHappen, Happens, StepBreaks;
    if run != [] {
      var before, m := WorldAfter(env, w, run[..|run| - 1]), run[|run| - 1];
      InterleavingsStayValid(env, w, run[..|run| - 1]);
      if InAgreement(env, before.holes) && CanHappen(before, m.step, m.now) {
        StepAgreesIff(env, before, m.step, m.now);
      }
      if AgreesThroughout(env, w, run[..|run| - 1]) { ThroughoutAtEnd(env, w, run[..|run| - 1]); }
    }
  }

  lemma {:induction false} ThroughoutAtEnd(env: Env, w: World, run: seq<Moment>)
    requires AgreesThroughout(env, w, run)
    ensures InAgreement(env, WorldAfter(env, w, run).holes)
  {
    hide InAgreement, WorldAfter;
  }

  /** The last step of a run in which nothing breaks. */
  lemma {:induction false} LastMoment(env: Env, w: World, run: seq<Moment>)
    requires InAgreement(env, w.holes) && !RunBreaks(env, w, run)
    ensures InAgreement(env, WorldAfter(env, w, run).holes)
    ensures run != [] ==>
      var before, m := WorldAfter(env, w, run[..|run| - 1]), run[|run| - 1];
      && !RunBreaks(env, w, run[..|run| - 1])
      && WorldAfter(env, w, run)
         == (if CanHappen(before, m.step, m.now) then Happens(env, before, m.step, m.now) else before)
      && (CanHappen(before, m.step, m.now) ==> !StepBreaks(env, before, m.step, m.now))
    ensures run == [] ==> WorldAfter(env, w, run) == w
  {
    InterleavingsStayValid(env, w, run);
    ThroughoutAtEnd(env, w, run);
    hide InAgreement, Happens, StepBreaks, AgreesThroughout;
  }

  /** Nobody removes `c`, and nobody cleans up. */
  predicate KeepsAway(step: Step, c: Client) { step != Step.Leave(c) && !step.Clean? }

  lemma {:induction false} StepKeepsHole(env: Env, w: World, step: Step, now: real, c: Client)
    requires InAgreement(env, w.holes) && CanHappen(w, step, now) && !StepBreaks(env, w, step, now)
    requires c in w.holes.entries && now < Deadline(w.holes.entries[c]) && KeepsAway(step, c)
    ensures c in Happens(env, w, step, now).holes.entries
    ensures Happens(env, w, step, now).holes.entries[c] == w.holes.entries[c]
  {
    var s := w.holes;
    if Down(env, s) { DownParts(env, s); }
    UpOrDown(env, s);
    assert Valid(env, s);
    HappensIsNext(env, w, step, now);
    NoEvent(step, now);
    WhenUp(env, w, step, now);
    hide InAgreement, Valid, Down, Happens, Next, StepBreaks, Breaks, IsUp, CanHappen, NotDue, Intended, EventOf;
    if EventOf(step, now).Some? {
      var ev := EventOf(step, now).value;
      WhoStaysOpen(env, s, ev, now);
      StaysIn(s, ev, now, c);
    }
  }

  /** A client that has a hole keeps it, over any run in which nothing breaks and nobody removes it, until it is due. */
  lemma {:induction false} RunKeepsHole(env: Env, w: World, run: seq<Moment>, c: Client)
    requires InAgreement(env, w.holes) && !RunBreaks(env, w, run) && c in w.holes.entries
    requires forall k :: 0 <= k < |run| ==> run[k].now < Deadline(w.holes.entries[c]) && KeepsAway(run[k].step, c)
    ensures c in WorldAfter(env, w, run).holes.entries
    ensures WorldAfter(env, w, run).holes.entries[c] == w.holes.entries[c]
  {
    hide *;
    LastMoment(env, w, run);
    if run != [] {
      var n := |run| - 1;
      RunKeepsHole(env, w, run[..n], c);
      LastMoment(env, w, run[..n]);
      var before, m := WorldAfter(env, w, run[..n]), run[n];
      if CanHappen(before, m.step, m.now) { StepKeepsHole(env, before, m.step, m.now, c); }
    }
  }

  /** Of two lookups for a client that both complete only the first answers yes: whatever happens in between, unless
      something breaks or the client is removed, the second one answers no and changes nothing until the hole of the
      first is due. */
  lemma {:induction false} SecondLookupRefused(env: Env, w: World, i: nat, status: ClientStatus, now: real,
                                               run: seq<Moment>, later: ClientStatus, then': real)
    requires Valid(env, w.holes) && CanHappen(w, Answer(i, status), now) && Completed(env, w.holes, status, now).1
    requires later.client == status.client
    requires var w1 := Happens(env, w, Answer(i, status), now); !RunBreaks(env, w1, run)
    requires forall k :: 0 <= k < |run| ==>
      run[k].now < status.loginTime + status.expiration && KeepsAway(run[k].step, status.client)
    ensures var s := WorldAfter(env, Happens(env, w, Answer(i, status), now), run).holes;
      status.client in s.entries && Completed(env, s, later, then') == (s, false)
  {
    AnswerTellsTruth(env, w.holes, status, now);
    var w1 := Happens(env, w, Answer(i, status), now);
    assert w1.holes == Completed(env, w.holes, status, now).0 by { hide Completed; }
    hide *;
    AgreementIs(env, w1.holes);
    RunKeepsHole(env, w1, run, status.client);
    CompletedIs(env, WorldAfter(env, w1, run).holes, later, then');
  }

  /** A client that is in the dictionary, with a hole or because it has been refused, asks with another number than
      0, as with its source port: it is looked up once more, and when the lookup completes it is told no. */
  lemma {:induction false} OtherNumberRefused(env: Env, w: World, asker: Client, status: ClientStatus, now: real,
                                              then': real)
    requires status.client in w.holes.entries && asker !in w.holes.entries
    ensures var w1 := Happens(env, w, Ask(asker), now);
      && w1 == w.(pending := w.pending + [asker]) && CanHappen(w1, Answer(|w.pending|, status), then')
      && Happens(env, w1, Answer(|w.pending|, status), then') == w.(answers := w.answers + [(asker, false)])
  {
    CompletedIs(env, w.holes, status, then');
    hide Completed;
    assert RemoveAt(w.pending + [asker], |w.pending|) == w.pending;
  }

  /** In such a run there is never more than one hole for a client, and for every address as many pairs of rules as
      there are holes for it. */
  lemma {:induction false} OneHoleEach(env: Env, w: World, run: seq<Moment>, c: Client)
    requires InAgreement(env, w.holes) && !RunBreaks(env, w, run)
    ensures var s := WorldAfter(env, w, run).holes;
      && |s.rules| == |s.list| == |s.entries|
      && (forall a :: multiset(s.rules)[a] == multiset(Map(s.list, AddressOf()))[a])
      && (forall i, j :: 0 <= i < j < |s.list| && s.list[i].hole.client == c ==> s.list[j].hole.client != c)
      && ((exists i :: 0 <= i < |s.list| && s.list[i].hole.client == c) <==> c in s.entries)
  {
    var s := WorldAfter(env, w, run).holes;
    LastMoment(env, w, run);
    assert Consistent(s) by {
      PartsOfValid(env, s);
      if Down(env, s) { DownParts(env, s); }
      hide Consistent, Valid, Down, WorldAfter, RunBreaks;
    }
    hide WorldAfter, RunBreaks, InAgreement;
    OneEntryEach(s, c);
  }

  lemma {:induction false} OneEntryEach(s: State, c: Client)
    requires Consistent(s)
    ensures |s.rules| == |s.list| == |s.entries|
    ensures forall a :: multiset(s.rules)[a] == multiset(Map(s.list, AddressOf()))[a]
    ensures forall i, j :: 0 <= i < j < |s.list| && s.list[i].hole.client == c ==> s.list[j].hole.client != c
    ensures (exists i :: 0 <= i < |s.list| && s.list[i].hole.client == c) <==> c in s.entries
  {
    RulesCount(s);
    AgreeIsDict(s.entries, s.list);
    DictSize(s.list, |s.list|);
    if c in s.entries {
      var i := PlaceOf(s, c);
    }
  }

  lemma {:induction false} DictSize(all: seq<HoleEntry>, i: nat)
    requires i <= |all| && ClientsDiffer(all)
    ensures |DictOf(all, i)| == i
  {
    if i > 0 {
      DictSize(all, i - 1);
      DictHolds(all, i - 1);
      assert DictOf(all, i).Keys == DictOf(all, i - 1).Keys + {all[i - 1].hole.client};
    }
  }

  // ---------------------------------------------------------------------------------------- the object

  class Firewall {
    const holes: Holes

    constructor (holes: Holes)
      ensures this.holes == holes
    {
      this.holes := holes;
    }

    /** Answers at once, or says that the client has to be looked up. */
    method ClientAllowed(client: Client) returns (answer: Option<bool>)
      ensures answer == if client in holes.holeEntries then Some(true) else None
    {
      var hole := holes.Find(client);
      return if hole.Some? then Some(true) else None;
    }

    method AddClientHole(status: ClientStatus, now: real, env: Env) returns (answer: Option<bool>)
      requires SortedList(holes.byExpiration)
      modifies holes
      ensures SortedList(holes.byExpiration)
      ensures (holes.Snapshot(), answer) == HoleAdded(env, old(holes.Snapshot()), status, now)
    {
      hide Added, SortedList;
      if status.expiration > 0.0 {
        var timeLeft := status.expiration - (now - status.loginTime);
        if timeLeft > 0.0 {
          var o := holes.Add(Hole(status.client, timeLeft), now, env);
          return if o == Done then Some(true) else None;
        }
      }
      return Some(false);
    }

    /** A lookup has completed. */
    method GetClientCb(status: ClientStatus, now: real, env: Env) returns (answer: bool)
      requires SortedList(holes.byExpiration)
      modifies holes
      ensures SortedList(holes.byExpiration)
      ensures (holes.Snapshot(), answer) == Completed(env, old(holes.Snapshot()), status, now)
    {
      hide HoleAdded, SortedList;
      var res := AddClientHole(status, now, env);
      return match res
        case Some(value) => value
        case None => GetClientEb();
    }

    /** A lookup, or its completion, has failed. */
    function GetClientEb(): bool { false }

    /** Removes a client's hole; the answer is missing when an exception is raised. */
    method RemoveClient(client: Client, now: real, env: Env) returns (removed: Option<bool>)
      requires SortedList(holes.byExpiration)
      modifies holes
      ensures SortedList(holes.byExpiration)
      ensures (holes.Snapshot(), removed) == HoleRemoved(env, old(holes.Snapshot()), client, now)
    {
      hide RemovedOne, SortedList;
      var o := holes.Remove(client, now, env);
      if o == HoleError {
        return Some(false);
      }
      return if o == Done then Some(true) else None;
    }
  }
}
