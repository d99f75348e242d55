/** The order of the pairs in the chain: newest hole first, as long as no two open holes share an address. */
module ChainOrder {
  import opened Seqs
  import opened Mangle
  import opened Wall
  import opened Schedule
  import opened ScheduleRuns

  /** Holes in the order in which they were opened, the newest one first. */
  ghost predicate NewestFirst(order: seq<HoleEntry>) {
    forall x, y :: 0 <= x < y < |order| ==> order[x].serial > order[y].serial
  }

  /** The sources are those of the listed holes, taken newest first; `order` are these holes in that order. */
  ghost predicate Stacked(rules: seq<Address>, list: seq<HoleEntry>, order: seq<HoleEntry>) {
    multiset(order) == multiset(list) && NewestFirst(order) && rules == Map(order, AddressOf())
  }

  ghost predicate InOrder(s: State) { exists order :: Stacked(s.rules, s.list, order) }

  // ------------------------------------------------------------------------------ the order of holes

  lemma {:induction false} TailMultiset(order: seq<HoleEntry>)
    requires order != []
    ensures multiset(order[1..]) == multiset(order) - multiset{order[0]}
  {
    assert order == [order[0]] + order[1..];
  }

  lemma {:induction false} SameHead(order: seq<HoleEntry>, order': seq<HoleEntry>)
    requires NewestFirst(order) && NewestFirst(order') && multiset(order) == multiset(order') && order != []
             && order' != []
    ensures order[0] == order'[0]
  {
    var n := PlaceIn(order', order, 0);
    var m := PlaceIn(order, order', 0);
  }

  /** There is only one such order. */
  lemma {:induction false} OneOrder(order: seq<HoleEntry>, order': seq<HoleEntry>)
    requires NewestFirst(order) && NewestFirst(order') && multiset(order) == multiset(order')
    ensures order == order'
  {
    if order == [] || order' == [] {
      assert |multiset(order)| == |order| && |multiset(order')| == |order'|;
    } else {
      SameHead(order, order');
      TailMultiset(order);
      TailMultiset(order');
      OneOrder(order[1..], order'[1..]);
      assert order == [order[0]] + order[1..] && order' == [order'[0]] + order'[1..];
    }
  }

  /** Where an entry of one of two equal collections stands in the other. */
  lemma {:induction false} PlaceIn(order: seq<HoleEntry>, list: seq<HoleEntry>, i: nat) returns (q: nat)
    requires multiset(order) == multiset(list) && i < |list|
    ensures q < |order| && order[q] == list[i]
  {
    assert list[i] in multiset(list);
    assert list[i] in order;
    q :| 0 <= q < |order| && order[q] == list[i];
  }

  lemma {:induction false} StaysNewestFirst(order: seq<HoleEntry>, q: nat)
    requires NewestFirst(order) && q < |order|
    ensures NewestFirst(RemoveAt(order, q))
  {
    assert forall k :: 0 <= k < |order| - 1 ==> RemoveAt(order, q)[k] == order[if k < q then k else k + 1];
  }

  lemma {:induction false} OrderRemoved(list: seq<HoleEntry>, order: seq<HoleEntry>, i: nat, q: nat)
    requires multiset(order) == multiset(list) && NewestFirst(order) && i < |list| && q < |order| && order[q] == list[i]
    ensures multiset(RemoveAt(order, q)) == multiset(RemoveAt(list, i)) && NewestFirst(RemoveAt(order, q))
  {
    MultisetRemove(list, i);
    MultisetRemove(order, q);
    StaysNewestFirst(order, q);
    hide NewestFirst, RemoveAt;
  }

  // --------------------------------------------------------------------------------- one pair goes

  /** All sources from place `j` to place `q` are the same. */
  predicate NothingBetween(rules: seq<Address>, j: nat, q: nat)
    requires q < |rules|
  {
    forall n :: j <= n <= q ==> rules[n] == rules[q]
  }

  lemma {:induction false} NextGoesIff(rules: seq<Address>, j: nat)
    requires j + 1 < |rules|
    ensures RemoveAt(rules, j) == RemoveAt(rules, j + 1) <==> rules[j] == rules[j + 1]
  {
    var a, b := RemoveAt(rules, j), RemoveAt(rules, j + 1);
    assert forall n :: 0 <= n < |a| ==> a[n] == rules[if n < j then n else n + 1];
    assert forall n :: 0 <= n < |a| ==> b[n] == rules[if n < j + 1 then n else n + 1];
    assert a[j] == rules[j + 1] && b[j] == rules[j];
  }

  /** Of two equal sources it does not matter which one goes exactly if all between them are the same too. */
  lemma {:induction false} EitherGoesIff(rules: seq<Address>, j: nat, q: nat)
    requires j <= q < |rules|
    ensures RemoveAt(rules, j) == RemoveAt(rules, q) <==> NothingBetween(rules, j, q)
    decreases q - j
  {
    if j < q {
      var a, b, c := RemoveAt(rules, j), RemoveAt(rules, j + 1), RemoveAt(rules, q);
      NextGoesIff(rules, j);
      EitherGoesIff(rules, j + 1, q);
      assert a[j] == rules[j + 1] && c[j] == rules[j];
      assert NothingBetween(rules, j, q) <==> rules[j] == rules[j + 1] && NothingBetween(rules, j + 1, q);
    }
  }

  /** A hole is taken out of the list, and the first pair for its address out of the chain.  The rest stays in order
      exactly if, from the newest hole of that address to the hole itself, all holes opened are of that address. */
  lemma {:induction false} RemovalKeepsOrderIff(s: State, order: seq<HoleEntry>, i: nat, q: nat, s1: State)
    requires Stacked(s.rules, s.list, order) && i < |s.list| && q < |order| && order[q] == s.list[i]
    requires s1.list == RemoveAt(s.list, i) && s1.rules == Fewer(s.rules, s.list[i].hole.client.address)
    ensures q < |s.rules| && s.rules[q] == s.list[i].hole.client.address
    ensures FirstRule(s.rules, s.rules[q]).Some? && FirstRule(s.rules, s.rules[q]).value <= q
    ensures InOrder(s1) <==> NothingBetween(s.rules, FirstRule(s.rules, s.rules[q]).value, q)
  {
    var a := s.list[i].hole.client.address;
    assert s.rules[q] == a;
    var j := FirstRule(s.rules, a).value;
    OrderRemoved(s.list, order, i, q);
    MapRemove(order, q, AddressOf());
    EitherGoesIff(s.rules, j, q);
    hide NothingBetween, FirstRule, NewestFirst, RemoveAt, Map;
    if InOrder(s1) {
      var order': seq<HoleEntry> :| Stacked(s1.rules, s1.list, order');
      OneOrder(order', RemoveAt(order, q));
    }
    if RemoveAt(s.rules, j) == RemoveAt(s.rules, q) {
      assert Stacked(s1.rules, s1.list, RemoveAt(order, q));
    }
  }

  // -------------------------------------------------------------------------- no address twice

  predicate AddressesDiffer(list: seq<HoleEntry>) {
    forall i, j :: 0 <= i < j < |list| ==> list[i].hole.client.address != list[j].hole.client.address
  }

  ghost predicate Ranked(s: State) { InOrder(s) && AddressesDiffer(s.list) }

  lemma {:induction false} OneOfAddress(list: seq<HoleEntry>, order: seq<HoleEntry>, q: nat, j: nat)
    requires multiset(order) == multiset(list) && AddressesDiffer(list) && NewestFirst(order) && j <= q < |order|
    requires order[j].hole.client.address == order[q].hole.client.address
    ensures j == q
  {
    var x := PlaceIn(list, order, j);
    var y := PlaceIn(list, order, q);
    assert x == y;
    assert order[j] == order[q];
  }

  lemma {:induction false} RankedRemoved(s: State, i: nat, s1: State)
    requires Ranked(s) && i < |s.list|
    requires s1.list == RemoveAt(s.list, i) && s1.rules == Fewer(s.rules, s.list[i].hole.client.address)
    ensures Ranked(s1)
  {
    var order: seq<HoleEntry> :| Stacked(s.rules, s.list, order);
    var q := PlaceIn(order, s.list, i);
    RemovalKeepsOrderIff(s, order, i, q, s1);
    var j := FirstRule(s.rules, s.rules[q]).value;
    assert s.rules[j] == order[j].hole.client.address;
    OneOfAddress(s.list, order, q, j);
    assert forall k :: 0 <= k < |s1.list| ==> s1.list[k] == s.list[if k < i then k else k + 1];
  }

  /** The event opens no hole for an address that has one. */
  predicate Unshared(s: State, ev: Event) {
    ev.Add? && ev.hole.client !in s.entries ==> forall c :: c in s.entries ==> c.address != ev.hole.client.address
  }

  lemma {:induction false} StackedPutIn(rules: seq<Address>, list: seq<HoleEntry>, order: seq<HoleEntry>, p: nat,
                                        e: HoleEntry)
    requires Stacked(rules, list, order) && p <= |list| && forall k :: 0 <= k < |list| ==> list[k].serial < e.serial
    ensures Stacked([e.hole.client.address] + rules, InsertAt(list, p, e), [e] + order)
  {
    forall k | 0 <= k < |order| ensures order[k].serial < e.serial { var n := PlaceIn(list, order, k); }
    MultisetInsert(list, p, e);
    StackedInFront(rules, order, e);
    hide NewestFirst, InsertAt, Map;
    assert multiset([e] + order) == multiset(order) + multiset{e};
  }

  lemma {:induction false} ListedApart(s: State, hole: Hole)
    requires Consistent(s) && hole.client !in s.entries && Unshared(s, Add(hole))
    ensures forall k :: 0 <= k < |s.list| ==>
      s.list[k].hole.client.address != hole.client.address && s.list[k].serial < s.made
  {
    forall k | 0 <= k < |s.list|
      ensures s.list[k].hole.client.address != hole.client.address && s.list[k].serial < s.made
    {
      EntryOf(s, k);
    }
  }

  lemma {:induction false} RankedPutIn(env: Env, s: State, hole: Hole, now: real)
    requires Consistent(s) && Ranked(s) && hole.client !in s.entries && Unshared(s, Add(hole))
    ensures Ranked(PutIn(env, s, hole, now))
  {
    var e := HoleEntry(s.made, hole, now);
    var p := Rank(s.list, Deadline(e));
    var order: seq<HoleEntry> :| Stacked(s.rules, s.list, order);
    ListedApart(s, hole);
    var s1 := PutIn(env, s, hole, now);
    assert s1.list == InsertAt(s.list, p, e) && s1.rules == [hole.client.address] + s.rules
        by { hide Rank, ClientAdded, InsertAt; }
    hide Consistent, Rank, PutIn, Stacked, AddressesDiffer, InsertAt, Unshared;
    StackedPutIn(s.rules, s.list, order, p, e);
    DifferPutIn(s.list, p, e);
  }

  lemma {:induction false} StackedInFront(rules: seq<Address>, order: seq<HoleEntry>, e: HoleEntry)
    requires NewestFirst(order) && rules == Map(order, AddressOf())
    requires forall k :: 0 <= k < |order| ==> order[k].serial < e.serial
    ensures NewestFirst([e] + order) && [e.hole.client.address] + rules == Map([e] + order, AddressOf())
  {
  }

  lemma {:induction false} DifferPutIn(list: seq<HoleEntry>, p: nat, e: HoleEntry)
    requires AddressesDiffer(list) && p <= |list|
    requires forall k :: 0 <= k < |list| ==> list[k].hole.client.address != e.hole.client.address
    ensures AddressesDiffer(InsertAt(list, p, e))
  {
    var list' := InsertAt(list, p, e);
    assert forall k :: 0 <= k < |list'| ==> list'[k] == if k < p then list[k] else if k == p then e else list[k - 1];
  }

  lemma {:induction false} RankedCaughtUp(env: Env, s: State, now: real)
    requires Consistent(s) && s.timer == None && Ranked(s) && Smooth(env, s, Rank(s.list, now))
    ensures Ranked(CaughtUp(env, s, now).0)
    decreases |s.list|
  {
    hide *;
    SmoothShows(env, s, Rank(s.list, now));
    CaughtUpStep(env, s, now);
    if s.list != [] && TimeLeft(s.list[0], now) <= 0.0 {
      var n := Rank(s.list[1..], now);
      SmoothSplits(env, s, s, 1, n);
      FirstIsFirst(s.list);
      var s1 := RemovedIs(env, s, 0);
      RemovedFront(s.list);
      SmoothSplits(env, s, s1, 1, n);
      RankedRemoved(s, 0, s1);
      RankedCaughtUp(env, s1, now);
    } else {
      RankedTimer(s, CaughtUp(env, s, now).0);
    }
  }

  lemma {:induction false} RankedTimer(s: State, s1: State)
    requires s1.list == s.list && s1.rules == s.rules
    ensures Ranked(s) <==> Ranked(s1)
  {
  }

  lemma {:induction false} RankedHead(env: Env, s: State, now: real)
    requires Consistent(s) && Ranked(s) && s.list != [] && Smooth(env, s, 1 + Rank(s.list[1..], now))
    ensures Ranked(RemovedOne(env, s, s.list[0].hole.client, now).0)
  {
    hide *;
    var n := Rank(s.list[1..], now);
    SmoothShows(env, s, 1 + n);
    SmoothSplits(env, s, s, 1, n);
    var s1 := HeadLeads(env, s, now);
    SmoothSplits(env, s, s1, 1, n);
    RemovedFront(s.list);
    RankedRemoved(s, 0, s1);
    RankedCaughtUp(env, s1, now);
  }

  lemma {:induction false} StepRanked(env: Env, s: State, ev: Event, now: real)
    requires Valid(env, s) && Legal(s, ev, now) && !Breaks(env, s, ev, now)
    requires Ranked(s) && Unshared(s, ev)
    ensures Ranked(Next(env, s, ev, now))
  {
    PartsOfValid(env, s);
    hide Valid, Breaks, Shows, Smooth, Consistent, Added, RemovedOne, RemovedAll, Fired, BehindItsEqual, OneDueFirst,
        ClosesOnAdd,
      Ranked, Removed, CaughtUp, Earliest;
    BreaksWhen(env, s, ev, now);
    match ev
    case Add(hole) =>
      if hole.client !in s.entries { RankedAdd(env, s, hole, now); } else { AlreadyThere(env, s, hole, now); }
    case Remove(client) =>
      if client in s.entries { RankedRemove(env, s, client, now); } else { NotThere(env, s, client, now); }
    case RemoveEverything =>
      RemovingAllEmpties(env, s, now);
      EmptyRanked(RemovedAll(env, s, s.list, now).0);
    case Fire =>
      FirstOverdue(s, now);
      FiringIs(env, s, now);
      SetTimer(s, None);
      RankedTimer(s, s.(timer := None));
      RankedHead(env, s.(timer := None), now);
  }

  lemma {:induction false} EmptyRanked(s: State)
    requires s == Initially(s.wall).(made := s.made)
    ensures Ranked(s)
  {
    assert Stacked(s.rules, s.list, []);
  }

  lemma {:induction false} RankedRemove(env: Env, s: State, client: Client, now: real)
    requires Valid(env, s) && Ranked(s) && client in s.entries && !BehindItsEqual(s, client)
    requires Smooth(env, s, Needs(env, s, Remove(client), now))
    ensures Ranked(RemovedOne(env, s, client, now).0)
  {
    PartsOfValid(env, s);
    hide Valid, Shows, Smooth, Consistent, Armed, BehindItsEqual, RemovedOne, Removed, Ranked, Fewer;
    var i := PlaceOf(s, client);
    BehindMeans(s, i);
    if i == 0 {
      RankedHead(env, s, now);
    } else {
      var s1 := RemovedIs(env, s, i);
      LaterGoes(env, s, i, now, s1);
      RankedRemoved(s, i, s1);
    }
  }

  lemma {:induction false} RankedAdd(env: Env, s: State, hole: Hole, now: real)
    requires Valid(env, s) && Ranked(s) && hole.client !in s.entries && Unshared(s, Add(hole))
    requires Smooth(env, s, 1 + ClosesOnAdd(env, s, hole, now))
    ensures Ranked(Added(env, s, hole, now).0)
  {
    var s2 := PutIn(env, s, hole, now);
    hide *;
    PartsOfValid(env, s);
    ClosesWhat(env, s, hole, now);
    PutInShows(env, s, hole, now);
    SmoothSplits(env, s, s2, 1, ClosesOnAdd(env, s, hole, now));
    AddedIs(env, s, hole, now);
    PutInConsistent(env, s, hole, now);
    RankedPutIn(env, s, hole, now);
    if Earliest(env, s, hole, now) {
      SetTimer(s2, None);
      SmoothWithout(env, s2, Rank(s2.list, now));
      RankedTimer(s2, s2.(timer := None));
      RankedCaughtUp(env, s2.(timer := None), now);
    }
  }

  /** Throughout the run no hole is opened for an address that has one. */
  ghost predicate UnsharedRun(env: Env, s: State, evs: seq<Timed>) {
    evs == [] ||
      var n := |evs| - 1;
      UnsharedRun(env, s, evs[..n]) && Unshared(Run(env, s, evs[..n]), evs[n].event)
  }

  lemma {:induction false} RunRanked(env: Env, wall: Table, evs: seq<Timed>)
    requires Shows(env, wall, []) && LegalRun(env, Initially(wall), evs) && NothingBreaks(env, Initially(wall), evs)
    requires UnsharedRun(env, Initially(wall), evs)
    ensures Ranked(Run(env, Initially(wall), evs))
  {
    LastUnshared(env, Initially(wall), evs);
    hide *;
    StartsValid(env, wall);
    if evs != [] {
      var n := |evs| - 1;
      LastStep(env, Initially(wall), evs);
      RunRanked(env, wall, evs[..n]);
      StepRanked(env, Run(env, Initially(wall), evs[..n]), evs[n].event, evs[n].now);
    } else {
      NoStep(env, Initially(wall));
      EmptyRanked(Initially(wall));
    }
  }

  lemma {:induction false} LastUnshared(env: Env, s: State, evs: seq<Timed>)
    requires UnsharedRun(env, s, evs)
    ensures evs != [] ==>
      UnsharedRun(env, s, evs[..|evs| - 1]) && Unshared(Run(env, s, evs[..|evs| - 1]), evs[|evs| - 1].event)
  {
    hide Run, Unshared;
  }

  /** Over any run in which nothing breaks and no two open holes share an address, the pairs of rules stand in the
      order in which their holes were opened, newest first. */
  lemma {:induction false} PairsStandNewestFirst(env: Env, wall: Table, evs: seq<Timed>)
    requires Shows(env, wall, []) && LegalRun(env, Initially(wall), evs) && NothingBreaks(env, Initially(wall), evs)
    requires UnsharedRun(env, Initially(wall), evs)
    ensures InOrder(Run(env, Initially(wall), evs))
  {
    RunRanked(env, wall, evs);
    hide Run, Shows, LegalRun, NothingBreaks, UnsharedRun, InOrder;
  }

  // ---------------------------------------------------------------------------- an address shared

  const C := Client(1, 1)
  const D := Client(2, 0)
  const E := Client(1, 2)
  const HOLE_C := HoleEntry(0, Hole(C, 10.0), 0.0)
  const HOLE_D := HoleEntry(1, Hole(D, 20.0), 0.0)
  const HOLE_E := HoleEntry(2, Hole(E, 30.0), 0.0)

  /** Three holes opened one after the other, the first and the last one for the same address, and the first removed;
      no two deadlines are equal. */
  function SharedAddress(): seq<Timed> {
    [Timed(0.0, Add(Hole(C, 10.0))), Timed(0.0, Add(Hole(D, 20.0))), Timed(0.0, Add(Hole(E, 30.0))),
     Timed(1.0, Remove(C))]
  }

  lemma {:induction false} RankOfTwo(a: HoleEntry, b: HoleEntry, d: real)
    requires Deadline(a) <= d && Deadline(b) <= d
    ensures Rank([a], d) == 1 && Rank([a, b], d) == 2
  {
    assert [a, b][1..] == [b];
  }

  /** The head is removed, and the next hole is not yet due. */
  lemma {:induction false} FirstOfThreeGoes(env: Env, s: State)
    requires s == State(map[C := HOLE_C, D := HOLE_D, E := HOLE_E], [HOLE_C, HOLE_D, HOLE_E], Some(10.0), s.wall,
                        [1, 2, 1], 3)
    requires Shows(env, s.wall, [1, 2, 1]) && NoFaults(env)
    ensures var s1 := RemovedOne(env, s, C, 1.0).0;
      s1.list == [HOLE_D, HOLE_E] && s1.rules == [2, 1] && RemovedOne(env, s, C, 1.0).1 == Done
  {
    assert FirstEqual(s.list, 10.0) == Some(0) && FirstRule([1, 2, 1], 1) == Some(0);
    assert RemoveAt(s.list, 0) == [HOLE_D, HOLE_E] && RemoveAt([1, 2, 1], 0) == [2, 1];
    NoFaultsSmooth(env, s, 1);
    hide Shows, ClientRemoved, NoFaults, Smooth, Removed, FirstEqual, FirstRule;
    RemovedAs(env, s, C, 0, 0);
    HeadLeadsTo(env, s, 1.0, Reduced(env, s, C, 0, 0));
  }

  lemma {:induction false} NotInOrder(s: State)
    requires s.list == [HOLE_D, HOLE_E] && s.rules == [2, 1]
    ensures !InOrder(s)
  {
    assert Map([HOLE_E, HOLE_D], AddressOf())[0] == 1 && s.rules[0] == 2;
    if InOrder(s) {
      var order: seq<HoleEntry> :| Stacked(s.rules, s.list, order);
      OneOrder(order, [HOLE_E, HOLE_D]);
      assert false;
    }
  }

  /** The pair that goes is that of the newer hole: two holes are left, of which the older one's pair stands in
      front. */
  lemma {:induction false} SharedAddressOutOfOrder(env: Env, wall: Table)
    requires Shows(env, wall, []) && NoFaults(env)
    ensures var s := Run(env, Initially(wall), SharedAddress());
      s.list == [HOLE_D, HOLE_E] && s.rules == [2, 1] && !InOrder(s)
  {
    var s0, evs := Initially(wall), SharedAddress();
    hide Shows, NoFaults, Next, InOrder;
    FirstAlone(env, s0, Hole(C, 10.0));
    var s1 := Next(env, s0, Add(Hole(C, 10.0)), 0.0);
    RankOfTwo(HOLE_C, HOLE_D, 20.0);
    RankOfTwo(HOLE_C, HOLE_D, 30.0);
    hide Rank;
    OpenedLast(env, s1, Hole(D, 20.0), 0.0);
    var s2 := Next(env, s1, Add(Hole(D, 20.0)), 0.0);
    assert [HOLE_C] + [HOLE_D] == [HOLE_C, HOLE_D] && [2] + [1] == [2, 1];
    OpenedLast(env, s2, Hole(E, 30.0), 0.0);
    var s3 := Next(env, s2, Add(Hole(E, 30.0)), 0.0);
    assert [HOLE_C, HOLE_D] + [HOLE_E] == [HOLE_C, HOLE_D, HOLE_E] && [1] + [2, 1] == [1, 2, 1];
    FirstOfThreeGoes(env, s3);
    NotInOrder(RemovedOne(env, s3, C, 1.0).0);
    RunOfFour(env, s0, evs[0], evs[1], evs[2], evs[3]);
    NextRemove(env, s3, C, 1.0);
  }

  lemma {:induction false} NextRemove(env: Env, s: State, c: Client, now: real)
    ensures Next(env, s, Remove(c), now) == RemovedOne(env, s, c, now).0
  {
  }

  lemma {:induction false} RunOfFour(env: Env, s: State, e1: Timed, e2: Timed, e3: Timed, e4: Timed)
    ensures var s1 := Next(env, s, e1.event, e1.now); var s2 := Next(env, s1, e2.event, e2.now);
      var s3 := Next(env, s2, e3.event, e3.now);
      Run(env, s, [e1, e2, e3, e4]) == Next(env, s3, e4.event, e4.now)
  {
    hide Next;
    TwoMore(env, s, [e1, e2], e3, e4);
    TwoMore(env, s, [], e1, e2);
    assert [e1, e2] + [e3, e4] == [e1, e2, e3, e4] && [] + [e1, e2] == [e1, e2];
    NoStep(env, s);
  }
}
