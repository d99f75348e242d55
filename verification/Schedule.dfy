/** The hole scheduler as a state machine: a dictionary of open holes, a list of the same holes by deadline,
    one timer, and the firewall's table.  The class that keeps this state is in `HoleTables`.

    The clock stands still during a call: the source reads it again for every comparison of two entries, and here
    all readings of one call give the same `now`. */
module Schedule {
  import opened Seqs
  import opened Mangle
  import opened Wall

  /** A client: its address, and a number that is 0 unless the client list says otherwise. */
  datatype Client = Client(address: Address, tag: nat)

  datatype Hole = Hole(client: Client, expiration: real)

  /** A hole with the time at which it was opened.  The serial number stands for the object's identity. */
  datatype HoleEntry = HoleEntry(serial: nat, hole: Hole, timestamp: real)

  function Deadline(e: HoleEntry): real { e.timestamp + e.hole.expiration }

  function TimeLeft(e: HoleEntry, now: real): real { Deadline(e) - now }

  /** `entries` is the dictionary, `list` the list by deadline, `timer` the time at which the timer fires, `wall`
      the firewall's table, `made` the number of entries made.  `rules` is a record of the calls made to the
      firewall that did not raise: the sources let in and not yet shut out, newest first.  Nothing depends on
      the record but what is proved. */
  datatype State = State(entries: map<Client, HoleEntry>, list: seq<HoleEntry>, timer: Option<real>,
                         wall: Table, rules: seq<Address>, made: nat)

  /** No hole, and a table. */
  function Initially(wall: Table): State { State(map[], [], None, wall, [], 0) }

  /** How a call ends: normally, or in an exception that leaves the state half-way. */
  datatype Outcome = Done | HoleError | IndexError | ValueError | FirewallError

  // ---------------------------------------------------------------------------------- single calls

  /** Number of entries at the front of a sorted list whose deadline is at most `d`. */
  function Rank(list: seq<HoleEntry>, d: real): (r: nat)
    ensures r <= |list|
    ensures forall i :: 0 <= i < r ==> Deadline(list[i]) <= d
    ensures r < |list| ==> Deadline(list[r]) > d
  {
    if list == [] || Deadline(list[0]) > d then 0 else 1 + Rank(list[1..], d)
  }

  /** The first entry that compares equal to one with deadline `d`. */
  function FirstEqual(list: seq<HoleEntry>, d: real): (r: Option<nat>)
    ensures r.Some? ==> r.value < |list| && Deadline(list[r.value]) == d
    ensures r.Some? ==> forall i :: 0 <= i < r.value ==> Deadline(list[i]) != d
    ensures r.None? ==> forall i :: 0 <= i < |list| ==> Deadline(list[i]) != d
  {
    if list == [] then None
    else if Deadline(list[0]) == d then Some(0)
    else match FirstEqual(list[1..], d)
      case None => None
      case Some(i) => Some(i + 1)
  }

  /** Whether removing `client` takes away the head of the list, so that the timer has to be set anew. */
  predicate IsHead(s: State, client: Client) {
    client in s.entries && s.list != [] && s.list[0] == s.entries[client]
  }

  /** The record without the first entry for a source. */
  function Fewer(rules: seq<Address>, a: Address): seq<Address> {
    match FirstRule(rules, a)
    case None => rules
    case Some(j) => RemoveAt(rules, j)
  }

  /** Takes a client out of the dictionary, the list and the firewall.  The list is searched for an entry
      that compares equal, and entries compare by deadline. */
  function Removed(env: Env, s: State, client: Client): (State, Outcome) {
    if client !in s.entries then (s, HoleError)
    else
      var e := s.entries[client];
      var s1 := s.(entries := s.entries - {client});
      if s.list == [] then (s1, IndexError)
      else match FirstEqual(s.list, Deadline(e))
        case None => (s1, ValueError)
        case Some(i) =>
          var (wall, ok) := ClientRemoved(env, s.wall, client.address);
          var s2 := s1.(list := RemoveAt(s.list, i), wall := wall);
          if ok then (s2.(rules := Fewer(s.rules, client.address)), Done) else (s2, FirewallError)
  }

  /** Removes overdue entries from the front until the timer can be set for the next deadline. */
  function CaughtUp(env: Env, s: State, now: real): (State, Outcome)
    decreases |s.list|
  {
    if s.list == [] then (s, Done)
    else
      var head := s.list[0];
      if TimeLeft(head, now) <= 0.0 then
        var (s1, o) := Removed(env, s, head.hole.client);
        if o != Done then (s1, o) else CaughtUp(env, s1, now)
      else (s.(timer := Some(now + TimeLeft(head, now))), Done)
  }

  function Rescheduled(env: Env, s: State, now: real): (State, Outcome) {
    CaughtUp(env, s.(timer := None), now)
  }

  function RemovedOne(env: Env, s: State, client: Client, now: real): (State, Outcome) {
    var (s1, o) := Removed(env, s, client);
    if o == Done && IsHead(s, client) then Rescheduled(env, s1, now) else (s1, o)
  }

  /** Opens a hole. */
  function Added(env: Env, s: State, hole: Hole, now: real): (State, Outcome) {
    if hole.client in s.entries then (s, HoleError)
    else
      var e := HoleEntry(s.made, hole, now);
      var (wall, ok) := ClientAdded(env, s.wall, hole.client.address);
      var s1 := s.(entries := s.entries[hole.client := e], made := s.made + 1, wall := wall);
      if !ok then (s1, FirewallError)
      else
        var list := InsertAt(s.list, Rank(s.list, Deadline(e)), e);
        var s2 := s1.(rules := [hole.client.address] + s.rules, list := list);
        if s.list == [] || Deadline(list[0]) != Deadline(s.list[0]) then Rescheduled(env, s2, now) else (s2, Done)
  }

  /** Removes the clients of `snapshot`, last one first. */
  function RemovedAll(env: Env, s: State, snapshot: seq<HoleEntry>, now: real): (State, Outcome)
    decreases |snapshot|
  {
    if snapshot == [] then (s, Done)
    else
      var (s1, o) := RemovedOne(env, s, snapshot[|snapshot| - 1].hole.client, now);
      if o != Done then (s1, o) else RemovedAll(env, s1, snapshot[..|snapshot| - 1], now)
  }

  /** The timer fires. */
  function Fired(env: Env, s: State, now: real): (State, Outcome) {
    var s1 := s.(timer := None);
    if s.list == [] then (s1, IndexError) else RemovedOne(env, s1, s.list[0].hole.client, now)
  }

  // ----------------------------------------------------------------------------------- the invariant

  ghost predicate SortedList(list: seq<HoleEntry>) {
    forall i, j :: 0 <= i < j < |list| ==> Deadline(list[i]) <= Deadline(list[j])
  }

  ghost predicate ClientsDiffer(list: seq<HoleEntry>) {
    forall i, j :: 0 <= i < j < |list| ==> list[i].hole.client != list[j].hole.client
  }

  /** Dictionary and list hold the same entries. */
  ghost predicate Agree(entries: map<Client, HoleEntry>, list: seq<HoleEntry>) {
    && ClientsDiffer(list)
    && (forall i {:trigger list[i]} :: 0 <= i < |list| ==>
         list[i].hole.client in entries && entries[list[i].hole.client] == list[i])
    && (forall c {:trigger entries[c]} :: c in entries ==> entries[c] in list && entries[c].hole.client == c)
  }

  function AddressOf(): HoleEntry -> Address { (e: HoleEntry) => e.hole.client.address }

  /** One rule for each hole in the list. */
  ghost predicate RulesMatch(rules: seq<Address>, list: seq<HoleEntry>) {
    multiset(rules) == multiset(Map(list, AddressOf()))
  }

  /** Everything but the timer is in order. */
  ghost predicate Consistent(s: State) {
    && SortedList(s.list) && Agree(s.entries, s.list) && RulesMatch(s.rules, s.list)
    && forall i :: 0 <= i < |s.list| ==> s.list[i].serial < s.made
  }

  /** The timer is armed exactly when there is a hole, and for the earliest deadline. */
  ghost predicate Armed(s: State) {
    s.timer == if s.list == [] then None else Some(Deadline(s.list[0]))
  }

  /** Dictionary, list and timer agree, whatever the table. */
  ghost predicate HolesAgree(s: State) { Consistent(s) && Armed(s) }

  /** Dictionary, list, timer and table agree: the table, edited and in force, is the one with the firewall
      installed and just the recorded sources let through, and there is one of these for each hole. */
  ghost predicate Valid(env: Env, s: State) { Consistent(s) && Armed(s) && Shows(env, s.wall, s.rules) }

  /** The table is in order, and enough of the coming table operations for `n` clients do not fail. */
  ghost predicate Smooth(env: Env, s: State, n: nat) {
    Shows(env, s.wall, s.rules) && FaultFree(env, s.wall.ops, 3 * n)
  }

  lemma {:induction false} SmoothSplits(env: Env, s: State, s1: State, m: nat, n: nat)
    requires Shows(env, s.wall, s.rules)
    ensures Smooth(env, s, m + n) <==> Smooth(env, s, m) && FaultFree(env, s.wall.ops + 3 * m, 3 * n)
    ensures Shows(env, s1.wall, s1.rules) && s1.wall.ops == s.wall.ops + 3 * m ==>
      (Smooth(env, s, m + n) <==> Smooth(env, s, m) && Smooth(env, s1, n))
  {
    FaultFreeSplits(env, s.wall.ops, 3 * m, 3 * n);
    assert 3 * (m + n) == 3 * m + 3 * n;
    hide FaultFree, Shows;
  }

  lemma {:induction false} PartsOfValid(env: Env, s: State)
    ensures Valid(env, s) <==> Consistent(s) && Armed(s) && Shows(env, s.wall, s.rules)
    ensures Smooth(env, s, 0) <==> Shows(env, s.wall, s.rules)
  {
    hide Shows;
    FaultFreeThree(env, s.wall.ops);
  }

  // ----------------------------------------------------------------------------------- removing one

  lemma {:induction false} MultisetRemove<T>(s: seq<T>, i: nat)
    requires i < |s|
    ensures multiset(RemoveAt(s, i)) == multiset(s) - multiset{s[i]}
  {
    assert s == s[..i] + [s[i]] + s[i + 1..];
  }

  lemma {:induction false} MultisetInsert<T>(s: seq<T>, i: nat, x: T)
    requires i <= |s|
    ensures multiset(InsertAt(s, i, x)) == multiset(s) + multiset{x}
  {
    assert s == s[..i] + s[i..];
  }

  /** A hole in the list has its rule. */
  lemma {:induction false} HasRule(rules: seq<Address>, list: seq<HoleEntry>, i: nat)
    requires RulesMatch(rules, list) && i < |list|
    ensures FirstRule(rules, list[i].hole.client.address).Some?
  {
    var a := list[i].hole.client.address;
    assert Map(list, AddressOf())[i] == a;
    assert a in multiset(rules);
    assert a in rules;
  }

  lemma {:induction false} AgreeRemoves(entries: map<Client, HoleEntry>, list: seq<HoleEntry>, i: nat)
    requires Agree(entries, list) && i < |list|
    ensures Agree(entries - {list[i].hole.client}, RemoveAt(list, i))
  {
    var list', entries' := RemoveAt(list, i), entries - {list[i].hole.client};
    assert forall j :: 0 <= j < |list'| ==> list'[j] == list[if j < i then j else j + 1];
    forall c | c in entries' ensures entries'[c] in list' && entries'[c].hole.client == c {
      var j :| 0 <= j < |list| && list[j] == entries[c];
      assert list'[if j < i then j else j - 1] == entries'[c];
    }
  }

  /** What one removal does when the list gives up entry `p` and the record entry `j`. */
  function Reduced(env: Env, s: State, client: Client, p: nat, j: nat): State
    requires p < |s.list| && j < |s.rules|
  {
    s.(entries := s.entries - {client}, list := RemoveAt(s.list, p), rules := RemoveAt(s.rules, j),
       wall := ClientRemoved(env, s.wall, client.address).0)
  }

  lemma {:induction false} RulesWithout(rules: seq<Address>, list: seq<HoleEntry>, i: nat, j: nat)
    requires RulesMatch(rules, list) && i < |list| && j < |rules| && rules[j] == list[i].hole.client.address
    ensures RulesMatch(RemoveAt(rules, j), RemoveAt(list, i))
  {
    MultisetRemove(rules, j);
    MultisetRemove(Map(list, AddressOf()), i);
    MapRemove(list, i, AddressOf());
  }

  lemma {:induction false} SortedWithout(list: seq<HoleEntry>, i: nat, made: nat)
    requires SortedList(list) && i < |list| && forall k :: 0 <= k < |list| ==> list[k].serial < made
    ensures SortedList(RemoveAt(list, i)) && forall k :: 0 <= k < |list| - 1 ==> RemoveAt(list, i)[k].serial < made
  {
    assert forall k :: 0 <= k < |list| - 1 ==> RemoveAt(list, i)[k] == list[if k < i then k else k + 1];
  }

  lemma {:induction false} ReducedIsConsistent(env: Env, s: State, i: nat, j: nat)
    requires Consistent(s) && i < |s.list| && j < |s.rules| && s.rules[j] == s.list[i].hole.client.address
    ensures Consistent(Reduced(env, s, s.list[i].hole.client, i, j))
  {
    AgreeRemoves(s.entries, s.list, i);
    RulesWithout(s.rules, s.list, i, j);
    SortedWithout(s.list, i, s.made);
    hide Agree, RulesMatch, SortedList, ClientRemoved, RemoveAt;
  }

  /** No entry before entry `i` compares equal to it. */
  predicate FirstOfItsTime(list: seq<HoleEntry>, i: nat)
    requires i < |list|
  {
    FirstEqual(list, Deadline(list[i])) == Some(i)
  }

  /** A removal while the firewall works. */
  lemma {:induction false} RemovedAs(env: Env, s: State, client: Client, p: nat, j: nat)
    requires client in s.entries && FirstEqual(s.list, Deadline(s.entries[client])) == Some(p)
    requires FirstRule(s.rules, client.address) == Some(j) && Smooth(env, s, 1)
    ensures Removed(env, s, client) == (Reduced(env, s, client, p, j), Done)
    ensures Shows(env, Reduced(env, s, client, p, j).wall, Reduced(env, s, client, p, j).rules)
    ensures Reduced(env, s, client, p, j).wall.ops == s.wall.ops + 3
  {
    RemovingShows(env, s.wall, s.rules, client.address);
    hide Shows, FaultFree, ClientRemoved;
  }

  /** Whatever the firewall does, dictionary and list give up an entry. */
  lemma {:induction false} RemovedShape(env: Env, s: State, client: Client, p: nat)
    requires client in s.entries && FirstEqual(s.list, Deadline(s.entries[client])) == Some(p)
    ensures var (s1, o) := Removed(env, s, client);
      && (o == Done || o == FirewallError) && s1.entries == s.entries - {client} && s1.list == RemoveAt(s.list, p)
      && (o == FirewallError ==> s1.rules == s.rules) && s1.wall == ClientRemoved(env, s.wall, client.address).0
      && (o == Done <==> ClientRemoved(env, s.wall, client.address).1)
  {
    hide ClientRemoved;
  }

  /** A removal while the firewall fails. */
  lemma {:induction false} RemovedNot(env: Env, s: State, client: Client, p: nat, now: real)
    requires client in s.entries && FirstEqual(s.list, Deadline(s.entries[client])) == Some(p)
    requires Shows(env, s.wall, s.rules) && !Smooth(env, s, 1)
    ensures RemovedOne(env, s, client, now) == Removed(env, s, client) && Removed(env, s, client).1 == FirewallError
    ensures |Removed(env, s, client).0.list| == |s.list| - 1 && Removed(env, s, client).0.rules == s.rules
  {
    RemovingShows(env, s.wall, s.rules, client.address);
    hide Shows, FaultFree, ClientRemoved;
  }

  lemma {:induction false} RemovedIs(env: Env, s: State, i: nat) returns (s1: State)
    requires Consistent(s) && i < |s.list| && FirstOfItsTime(s.list, i) && Smooth(env, s, 1)
    ensures Removed(env, s, s.list[i].hole.client) == (s1, Done)
    ensures Consistent(s1) && Shows(env, s1.wall, s1.rules) && s1.wall.ops == s.wall.ops + 3
    ensures s1.list == RemoveAt(s.list, i) && s1.entries == s.entries - {s.list[i].hole.client}
    ensures s1.timer == s.timer && s1.made == s.made && s1.rules == Fewer(s.rules, s.list[i].hole.client.address)
  {
    var client := s.list[i].hole.client;
    HasRule(s.rules, s.list, i);
    EntryOf(s, i);
    var j := FirstRule(s.rules, client.address).value;
    hide Consistent, Smooth, Shows, Removed, FirstEqual, FirstRule;
    RemovedAs(env, s, client, i, j);
    ReducedIsConsistent(env, s, i, j);
    s1 := Reduced(env, s, client, i, j);
  }

  lemma {:induction false} RulesCount(s: State)
    requires Consistent(s)
    ensures |s.rules| == |s.list|
  {
    assert |multiset(s.rules)| == |multiset(Map(s.list, AddressOf()))|;
  }

  /** When the firewall fails to shut a client out, a hole is gone from the dictionary and one from the list, and the
      table in force is as it was, with the client's rules; what has been edited stays in the snapshot. */
  lemma {:induction false} RefusedRemovalBreaks(env: Env, s: State, i: nat, now: real)
    requires Consistent(s) && i < |s.list| && Shows(env, s.wall, s.rules) && !Smooth(env, s, 1)
    ensures var c := s.list[i].hole.client; var (s1, o) := RemovedOne(env, s, c, now);
      && Removed(env, s, c) == (s1, o) && o == FirewallError && !Consistent(s1)
      && s1.entries == s.entries - {c} && |s1.list| == |s.list| - 1 && s1.rules == s.rules
      && s1.wall == ClientRemoved(env, s.wall, c.address).0 && s1.wall.inForce == s.wall.inForce
  {
    EntryOf(s, i);
    var p := FirstEqual(s.list, Deadline(s.list[i])).value;
    var c := s.list[i].hole.client;
    RulesCount(s);
    RefusedKeepsInForce(env, s.wall, c.address);
    hide Consistent, Removed, RemovedOne, Smooth, Shows, FirstEqual, ClientRemoved;
    RemovedNot(env, s, c, p, now);
    RemovedShape(env, s, c, p);
    var s1 := Removed(env, s, c).0;
    if Consistent(s1) { RulesCount(s1); }
  }

  lemma {:induction false} RefusalBreaks(env: Env, s: State, i: nat, now: real)
    requires Consistent(s) && i < |s.list| && Shows(env, s.wall, s.rules) && !Smooth(env, s, 1)
    ensures RemovedOne(env, s, s.list[i].hole.client, now) == Removed(env, s, s.list[i].hole.client)
    ensures Removed(env, s, s.list[i].hole.client).1 == FirewallError
    ensures !Consistent(Removed(env, s, s.list[i].hole.client).0)
  {
    hide *;
    RefusedRemovalBreaks(env, s, i, now);
  }

  // ------------------------------------------------------------------------------------ rescheduling

  /** One round of catching up. */
  lemma {:induction false} CaughtUpStep(env: Env, s: State, now: real)
    ensures s.list != [] && TimeLeft(s.list[0], now) <= 0.0 ==>
      var (s1, o) := Removed(env, s, s.list[0].hole.client);
      && Rank(s.list, now) == 1 + Rank(s.list[1..], now)
      && CaughtUp(env, s, now) == if o == Done then CaughtUp(env, s1, now) else (s1, o)
    ensures s.list != [] && TimeLeft(s.list[0], now) > 0.0 ==>
      var s1 := s.(timer := Some(now + TimeLeft(s.list[0], now)));
      Rank(s.list, now) == 0 && s.list[0..] == s.list && CaughtUp(env, s, now) == (s1, Done) && Armed(s1)
    ensures s.list == [] ==>
      && Rank(s.list, now) == 0 && s.list[0..] == s.list && CaughtUp(env, s, now) == (s, Done)
      && (s.timer == None ==> Armed(s))
  {
    hide Removed;
  }

  /** Catching up closes just the overdue holes, and arms the timer for the earliest of the rest; unless the
      firewall fails at one of these, which breaks the state. */
  lemma {:induction false} CatchingUp(env: Env, s: State, now: real)
    requires Consistent(s) && s.timer == None && Shows(env, s.wall, s.rules)
    ensures Smooth(env, s, Rank(s.list, now)) ==>
      var (s1, o) := CaughtUp(env, s, now);
      && o == Done && Valid(env, s1) && s1.list == s.list[Rank(s.list, now)..] && s1.made == s.made
      && s1.wall.ops == s.wall.ops + 3 * Rank(s.list, now)
    ensures !Smooth(env, s, Rank(s.list, now)) ==>
      CaughtUp(env, s, now).1 == FirewallError && !Consistent(CaughtUp(env, s, now).0)
    decreases |s.list|
  {
    hide *;
    PartsOfValid(env, s);
    CaughtUpStep(env, s, now);
    if s.list != [] && TimeLeft(s.list[0], now) <= 0.0 {
      var n := Rank(s.list[1..], now);
      if Smooth(env, s, 1) {
        FirstIsFirst(s.list);
        RemovedFront(s.list);
        var s1 := RemovedIs(env, s, 0);
        SmoothSplits(env, s, s1, 1, n);
        CatchingUp(env, s1, now);
        assert s.list[1..][n..] == s.list[1 + n..];
      } else {
        SmoothSplits(env, s, s, 1, n);
        RefusalBreaks(env, s, 0, now);
      }
    } else {
      PartsOfValid(env, CaughtUp(env, s, now).0);
      if s.list != [] { SetTimer(s, Some(now + TimeLeft(s.list[0], now))); }
    }
  }

  lemma {:induction false} SetTimer(s: State, timer: Option<real>)
    requires Consistent(s)
    ensures Consistent(s.(timer := timer))
  {
  }

  /** Removing the head leads to catching up. */
  lemma {:induction false} HeadLeads(env: Env, s: State, now: real) returns (s1: State)
    requires Consistent(s) && s.list != [] && Smooth(env, s, 1)
    ensures RemovedOne(env, s, s.list[0].hole.client, now) == CaughtUp(env, s1, now)
    ensures Consistent(s1) && s1.timer == None && s1.list == s.list[1..] && s1.made == s.made
    ensures Shows(env, s1.wall, s1.rules) && s1.wall.ops == s.wall.ops + 3
    ensures s1.entries == s.entries - {s.list[0].hole.client}
            && s1.rules == Fewer(s.rules, s.list[0].hole.client.address)
  {
    EntryOf(s, 0);
    FirstIsFirst(s.list);
    hide *;
    var s0 := RemovedIs(env, s, 0);
    HeadLeadsTo(env, s, now, s0);
    SetTimer(s0, None);
    s1 := s0.(timer := None);
    RemovedFront(s.list);
  }

  lemma {:induction false} FirstIsFirst(list: seq<HoleEntry>)
    requires list != []
    ensures FirstOfItsTime(list, 0)
  {
  }

  lemma {:induction false} RemovedFront<T>(s: seq<T>)
    requires s != []
    ensures RemoveAt(s, 0) == s[1..]
  {
  }

  lemma {:induction false} HeadLeadsTo(env: Env, s: State, now: real, s0: State)
    requires s.list != [] && Removed(env, s, s.list[0].hole.client) == (s0, Done)
    requires s.list[0].hole.client in s.entries && s.entries[s.list[0].hole.client] == s.list[0]
    ensures RemovedOne(env, s, s.list[0].hole.client, now) == CaughtUp(env, s0.(timer := None), now)
  {
    hide Removed, CaughtUp;
  }

  /** Number of holes closed when the one at place `i` is removed: the head takes the overdue ones along. */
  function Closes(s: State, i: nat, now: real): nat
    requires i < |s.list|
  {
    if i == 0 then 1 + Rank(s.list[1..], now) else 1
  }

  lemma {:induction false} TailOfTail(list: seq<HoleEntry>, n: nat)
    requires 1 + n <= |list|
    ensures list[1..][n..] == list[1 + n..]
  {
  }

  lemma {:induction false} SmoothShows(env: Env, s: State, n: nat)
    requires Smooth(env, s, n)
    ensures Shows(env, s.wall, s.rules)
  {
    hide Shows, FaultFree;
  }

  lemma {:induction false} HeadGoes(env: Env, s: State, now: real)
    requires Consistent(s) && s.list != [] && Smooth(env, s, 1 + Rank(s.list[1..], now))
    ensures var (s1, o) := RemovedOne(env, s, s.list[0].hole.client, now);
      o == Done && Valid(env, s1) && s1.list == s.list[1 + Rank(s.list[1..], now)..] && s1.made == s.made
  {
    hide *;
    var n := Rank(s.list[1..], now);
    TailOfTail(s.list, n);
    SmoothShows(env, s, 1 + n);
    SmoothSplits(env, s, s, 1, n);
    var s1 := HeadLeads(env, s, now);
    SmoothSplits(env, s, s1, 1, n);
    CatchingUp(env, s1, now);
  }

  lemma {:induction false} RestStays(env: Env, s: State, now: real, n: nat)
    requires Consistent(s) && s.list != [] && n == Rank(s.list[1..], now)
    requires Shows(env, s.wall, s.rules) && Smooth(env, s, 1) && !Smooth(env, s, 1 + n)
    ensures RemovedOne(env, s, s.list[0].hole.client, now).1 == FirewallError
    ensures !Consistent(RemovedOne(env, s, s.list[0].hole.client, now).0)
  {
    hide *;
    var s1 := HeadLeads(env, s, now);
    SmoothSplits(env, s, s1, 1, n);
    assert Rank(s1.list, now) == n;
    CatchingUp(env, s1, now);
  }

  lemma {:induction false} HeadStays(env: Env, s: State, now: real)
    requires Consistent(s) && s.list != [] && Shows(env, s.wall, s.rules) && !Smooth(env, s, 1 + Rank(s.list[1..], now))
    ensures var (s1, o) := RemovedOne(env, s, s.list[0].hole.client, now); o == FirewallError && !Consistent(s1)
  {
    var n := Rank(s.list[1..], now);
    hide *;
    if Smooth(env, s, 1) {
      RestStays(env, s, now, n);
    } else {
      RefusalBreaks(env, s, 0, now);
    }
  }

  /** Removing the head: the timer moves on to what is left. */
  lemma {:induction false} HeadRemoved(env: Env, s: State, now: real)
    requires Consistent(s) && s.list != [] && Shows(env, s.wall, s.rules)
    ensures Smooth(env, s, 1 + Rank(s.list[1..], now)) ==>
      var (s1, o) := RemovedOne(env, s, s.list[0].hole.client, now);
      o == Done && Valid(env, s1) && s1.list == s.list[1 + Rank(s.list[1..], now)..] && s1.made == s.made
    ensures !Smooth(env, s, 1 + Rank(s.list[1..], now)) ==>
      var (s1, o) := RemovedOne(env, s, s.list[0].hole.client, now);
      o == FirewallError && !Consistent(s1)
  {
    var n := Rank(s.list[1..], now);
    hide *;
    if Smooth(env, s, 1 + n) {
      HeadGoes(env, s, now);
    } else {
      HeadStays(env, s, now);
    }
  }

  /** Removing a client whose entry stands behind one with the same deadline takes that one out of the list. */
  lemma {:induction false} TiedRemovalBreaks(env: Env, s: State, i: nat, now: real)
    requires Consistent(s) && i < |s.list| && !FirstOfItsTime(s.list, i)
    ensures !Consistent(RemovedOne(env, s, s.list[i].hole.client, now).0)
  {
    var client := s.list[i].hole.client;
    EntryOf(s, i);
    var p := FirstEqual(s.list, Deadline(s.list[i])).value;
    assert !IsHead(s, client) && p < i;
    RemovedShape(env, s, client, p);
    hide Removed, Rescheduled;
    var s1 := RemovedOne(env, s, client, now).0;
    assert s1.list[i - 1] == s.list[i] && client !in s1.entries;
  }

  /** Removing one client keeps a valid state valid exactly when no other hole with the same deadline stands before
      its own, and the firewall fails at none of the holes to be closed. */
  lemma {:induction false} RemovingKeepsValidIff(env: Env, s: State, i: nat, now: real)
    requires Valid(env, s) && i < |s.list|
    ensures Valid(env, RemovedOne(env, s, s.list[i].hole.client, now).0)
       <==> FirstOfItsTime(s.list, i) && Smooth(env, s, Closes(s, i, now))
  {
    var (s1, o) := RemovedOne(env, s, s.list[i].hole.client, now);
    PartsOfValid(env, s);
    PartsOfValid(env, s1);
    if !FirstOfItsTime(s.list, i) {
      TiedRemovalBreaks(env, s, i, now);
    } else if i == 0 {
      HeadRemoved(env, s, now);
    } else if Smooth(env, s, 1) {
      var s2 := RemovedIs(env, s, i);
      LaterGoes(env, s, i, now, s2);
    } else {
      RefusalBreaks(env, s, i, now);
    }
  }

  /** Removing an entry that is not the head leaves the timer alone. */
  lemma {:induction false} LaterGoes(env: Env, s: State, i: nat, now: real, s1: State)
    requires Consistent(s) && Armed(s) && 0 < i < |s.list| && Removed(env, s, s.list[i].hole.client) == (s1, Done)
    requires s1.list == RemoveAt(s.list, i) && s1.timer == s.timer
    ensures RemovedOne(env, s, s.list[i].hole.client, now) == (s1, Done) && Armed(s1)
  {
    EntryOf(s, i);
    assert s.list[0] != s.list[i];
    hide Removed;
  }

  lemma {:induction false} FirstOverdue(s: State, now: real)
    requires Armed(s) && s.timer.Some? && s.timer.value <= now
    ensures s.list != [] && Rank(s.list, now) == 1 + Rank(s.list[1..], now)
  {
  }

  lemma {:induction false} FiringIs(env: Env, s: State, now: real)
    requires s.list != []
    ensures Fired(env, s, now) == RemovedOne(env, s.(timer := None), s.list[0].hole.client, now)
    ensures forall n :: Smooth(env, s.(timer := None), n) <==> Smooth(env, s, n)
  {
    hide RemovedOne, Shows, FaultFree;
  }

  /** When the timer fires, exactly the holes whose time is up are closed, all of them at once, unless the firewall
      fails at one of them. */
  lemma {:induction false} FiringClosesOverdue(env: Env, s: State, now: real)
    requires Valid(env, s) && s.timer.Some? && s.timer.value <= now
    ensures Smooth(env, s, Rank(s.list, now)) ==>
      var (s1, o) := Fired(env, s, now);
      && o == Done && Valid(env, s1) && s1.list == s.list[Rank(s.list, now)..]
      && forall c :: c in s1.entries <==> c in s.entries && Deadline(s.entries[c]) > now
    ensures !Smooth(env, s, Rank(s.list, now)) ==>
      Fired(env, s, now).1 == FirewallError && !Valid(env, Fired(env, s, now).0)
  {
    var s0, s1 := s.(timer := None), Fired(env, s, now).0;
    hide *;
    PartsOfValid(env, s);
    PartsOfValid(env, s1);
    SetTimer(s, None);
    FirstOverdue(s, now);
    FiringIs(env, s, now);
    HeadRemoved(env, s0, now);
    if Smooth(env, s, Rank(s.list, now)) {
      SuffixOpen(s, s1, Rank(s.list, now), now);
    }
  }

  /** The dictionary beside a suffix of the list. */
  lemma {:induction false} SuffixOpen(s: State, s1: State, r: nat, now: real)
    requires Consistent(s) && Consistent(s1) && r == Rank(s.list, now) && s1.list == s.list[r..]
    ensures forall c :: c in s1.entries <==> c in s.entries && Deadline(s.entries[c]) > now
    ensures forall c :: c in s1.entries ==> c in s.entries && s1.entries[c] == s.entries[c]
  {
    hide Consistent;
    forall c ensures c in s1.entries <==> c in s.entries && Deadline(s.entries[c]) > now
      ensures c in s1.entries ==> c in s.entries && s1.entries[c] == s.entries[c]
    {
      if c in s1.entries {
        var j := PlaceOf(s1, c);
        EntryOf(s, r + j);
        Later(s, r, r + j);
      }
      if c in s.entries && Deadline(s.entries[c]) > now {
        var j := PlaceOf(s, c);
        EntryOf(s1, j - r);
      }
    }
  }

  lemma {:induction false} Later(s: State, i: nat, j: nat)
    requires Consistent(s) && i <= j < |s.list|
    ensures Deadline(s.list[i]) <= Deadline(s.list[j])
  {
  }

  lemma {:induction false} EntryOf(s: State, j: nat)
    requires Consistent(s) && j < |s.list|
    ensures s.list[j].hole.client in s.entries && s.entries[s.list[j].hole.client] == s.list[j]
  {
  }

  lemma {:induction false} PlaceOf(s: State, c: Client) returns (j: nat)
    requires Consistent(s) && c in s.entries
    ensures j < |s.list| && s.list[j] == s.entries[c] && s.list[j].hole.client == c
  {
    j :| 0 <= j < |s.list| && s.list[j] == s.entries[c];
  }

  // -------------------------------------------------------------------------------------- adding

  /** The state right after the new hole has been put in, before any rescheduling. */
  function PutIn(env: Env, s: State, hole: Hole, now: real): State {
    var e := HoleEntry(s.made, hole, now);
    s.(entries := s.entries[hole.client := e], made := s.made + 1,
       wall := ClientAdded(env, s.wall, hole.client.address).0, rules := [hole.client.address] + s.rules,
       list := InsertAt(s.list, Rank(s.list, Deadline(e)), e))
  }

  lemma {:induction false} PutInSorted(list: seq<HoleEntry>, e: HoleEntry)
    requires SortedList(list)
    ensures SortedList(InsertAt(list, Rank(list, Deadline(e)), e))
  {
    var r := Rank(list, Deadline(e));
    var list' := InsertAt(list, r, e);
    assert forall k :: 0 <= k < |list'| && k != r ==> list'[k] == list[if k < r then k else k - 1];
    assert list'[r] == e;
    assert forall k :: r <= k < |list| ==> Deadline(list[r]) <= Deadline(list[k]);
  }

  lemma {:induction false} PutInAgrees(entries: map<Client, HoleEntry>, list: seq<HoleEntry>, p: nat, e: HoleEntry)
    requires Agree(entries, list) && p <= |list| && e.hole.client !in entries
    ensures Agree(entries[e.hole.client := e], InsertAt(list, p, e))
  {
    var list', entries' := InsertAt(list, p, e), entries[e.hole.client := e];
    assert forall k :: 0 <= k < |list'| && k != p ==> list'[k] == list[if k < p then k else k - 1];
    assert list'[p] == e;
    forall c | c in entries' ensures entries'[c] in list' && entries'[c].hole.client == c {
      if c != e.hole.client {
        var j :| 0 <= j < |list| && list[j] == entries[c];
        assert list'[if j < p then j else j + 1] == entries[c];
      }
    }
  }

  lemma {:induction false} PutInConsistent(env: Env, s: State, hole: Hole, now: real)
    requires Consistent(s) && hole.client !in s.entries
    ensures Consistent(PutIn(env, s, hole, now))
  {
    var e := HoleEntry(s.made, hole, now);
    var r := Rank(s.list, Deadline(e));
    PutInSorted(s.list, e);
    PutInAgrees(s.entries, s.list, r, e);
    hide SortedList, Agree, RulesMatch;
    RulesPutIn(s.rules, s.list, r, e);
    SerialsPutIn(s.list, r, e, s.made);
  }

  lemma {:induction false} RulesPutIn(rules: seq<Address>, list: seq<HoleEntry>, r: nat, e: HoleEntry)
    requires RulesMatch(rules, list) && r <= |list|
    ensures RulesMatch([e.hole.client.address] + rules, InsertAt(list, r, e))
  {
    MultisetInsert(Map(list, AddressOf()), r, e.hole.client.address);
    MapInsert(list, r, e, AddressOf());
  }

  lemma {:induction false} SerialsPutIn(list: seq<HoleEntry>, r: nat, e: HoleEntry, made: nat)
    requires r <= |list| && e.serial == made && forall i :: 0 <= i < |list| ==> list[i].serial < made
    ensures forall i :: 0 <= i < |InsertAt(list, r, e)| ==> InsertAt(list, r, e)[i].serial < made + 1
  {
  }

  /** Whether the new hole is due before all others. */
  predicate Earliest(env: Env, s: State, hole: Hole, now: real) {
    s.list == [] || Deadline(PutIn(env, s, hole, now).list[0]) != Deadline(s.list[0])
  }

  /** Number of holes closed on the way when a hole is opened. */
  function ClosesOnAdd(env: Env, s: State, hole: Hole, now: real): nat {
    if Earliest(env, s, hole, now) then Rank(PutIn(env, s, hole, now).list, now) else 0
  }

  lemma {:induction false} AddedIs(env: Env, s: State, hole: Hole, now: real)
    requires hole.client !in s.entries && ClientAdded(env, s.wall, hole.client.address).1
    ensures Added(env, s, hole, now) ==
      if Earliest(env, s, hole, now) then CaughtUp(env, PutIn(env, s, hole, now).(timer := None), now)
      else (PutIn(env, s, hole, now), Done)
  {
    hide CaughtUp, Rank, ClientAdded;
  }

  lemma {:induction false} LaterStaysArmed(env: Env, s: State, hole: Hole, now: real)
    requires Armed(s) && !Earliest(env, s, hole, now)
    ensures Armed(PutIn(env, s, hole, now))
  {
    hide ClientAdded;
  }

  /** The table once a client has been let in. */
  lemma {:induction false} PutInShows(env: Env, s: State, hole: Hole, now: real)
    requires Shows(env, s.wall, s.rules)
    ensures ClientAdded(env, s.wall, hole.client.address).1 <==> Smooth(env, s, 1)
    ensures Smooth(env, s, 1) ==>
      && Shows(env, PutIn(env, s, hole, now).wall, PutIn(env, s, hole, now).rules)
      && PutIn(env, s, hole, now).wall.ops == s.wall.ops + 3
    ensures PutIn(env, s, hole, now).made == s.made + 1
  {
    AddingShows(env, s.wall, s.rules, hole.client.address);
    hide Shows, FaultFree, ClientAdded;
  }

  /** When the firewall fails to let the client in, whatever its table, the client is left in the dictionary and not
      in the list; the table in force is as it was, and what has been edited stays in the snapshot. */
  lemma {:induction false} RefusedAddBreaks(env: Env, s: State, hole: Hole, now: real)
    requires Consistent(s) && hole.client !in s.entries && !ClientAdded(env, s.wall, hole.client.address).1
    ensures Added(env, s, hole, now).1 == FirewallError && !Consistent(Added(env, s, hole, now).0)
    ensures hole.client in Added(env, s, hole, now).0.entries && Added(env, s, hole, now).0.list == s.list
    ensures Added(env, s, hole, now).0.timer == s.timer && Added(env, s, hole, now).0.rules == s.rules
    ensures Added(env, s, hole, now).0.wall == ClientAdded(env, s.wall, hole.client.address).0
    ensures Added(env, s, hole, now).0.wall.inForce == s.wall.inForce
  {
    RefusedKeepsInForce(env, s.wall, hole.client.address);
    hide ClientAdded;
    var s1 := Added(env, s, hole, now).0;
    if Consistent(s1) {
      var j := PlaceOf(s1, hole.client);
      EntryOf(s, j);
    }
  }

  /** Opening a hole for a new client keeps a valid state valid unless the firewall fails.  If the new hole is now
      the earliest, holes whose time is up are closed on the way; otherwise nothing else changes. */
  lemma {:induction false} AddingKeepsValidIff(env: Env, s: State, hole: Hole, now: real)
    requires Valid(env, s) && hole.client !in s.entries
    ensures Smooth(env, s, 1 + ClosesOnAdd(env, s, hole, now)) ==>
      var (s1, o) := Added(env, s, hole, now); var list := PutIn(env, s, hole, now).list;
      && o == Done && Valid(env, s1) && s1.made == s.made + 1
      && s1.list == if Earliest(env, s, hole, now) then list[Rank(list, now)..] else list
    ensures !Smooth(env, s, 1 + ClosesOnAdd(env, s, hole, now)) ==>
      Added(env, s, hole, now).1 == FirewallError && !Valid(env, Added(env, s, hole, now).0)
  {
    var s2, s1 := PutIn(env, s, hole, now), Added(env, s, hole, now).0;
    ClosesWhat(env, s, hole, now);
    hide *;
    PartsOfValid(env, s);
    PartsOfValid(env, s1);
    PartsOfValid(env, s2);
    PutInShows(env, s, hole, now);
    SmoothSplits(env, s, s2, 1, ClosesOnAdd(env, s, hole, now));
    if Smooth(env, s, 1) {
      AddedIs(env, s, hole, now);
      PutInConsistent(env, s, hole, now);
      if Earliest(env, s, hole, now) {
        SetTimer(s2, None);
        SmoothWithout(env, s2, Rank(s2.list, now));
        CatchingUp(env, s2.(timer := None), now);
      } else {
        LaterStaysArmed(env, s, hole, now);
      }
    } else {
      RefusedAddBreaks(env, s, hole, now);
    }
  }

  lemma {:induction false} ClosesWhat(env: Env, s: State, hole: Hole, now: real)
    ensures ClosesOnAdd(env, s, hole, now)
         == if Earliest(env, s, hole, now) then Rank(PutIn(env, s, hole, now).list, now) else 0
  {
  }

  lemma {:induction false} SmoothWithout(env: Env, s: State, n: nat)
    ensures Smooth(env, s.(timer := None), n) <==> Smooth(env, s, n)
  {
  }

  // ---------------------------------------------------------------------------------- removing all

  /** The first `i` entries of `all`, as a dictionary. */
  function DictOf(all: seq<HoleEntry>, i: nat): map<Client, HoleEntry>
    requires i <= |all|
  {
    if i == 0 then map[] else DictOf(all, i - 1)[all[i - 1].hole.client := all[i - 1]]
  }

  lemma {:induction false} DictHolds(all: seq<HoleEntry>, i: nat)
    requires i <= |all| && ClientsDiffer(all)
    ensures forall j :: 0 <= j < i ==>
      all[j].hole.client in DictOf(all, i) && DictOf(all, i)[all[j].hole.client] == all[j]
    ensures forall j :: i <= j < |all| ==> all[j].hole.client !in DictOf(all, i)
    ensures forall c :: c in DictOf(all, i) ==> exists j :: 0 <= j < i && all[j].hole.client == c
    ensures i > 0 ==> DictOf(all, i) - {all[i - 1].hole.client} == DictOf(all, i - 1)
  {
    if i > 0 {
      DictHolds(all, i - 1);
      assert all[i - 1].hole.client !in DictOf(all, i - 1);
      assert DictOf(all, i) - {all[i - 1].hole.client} == DictOf(all, i - 1);
    }
  }

  /** Dictionary and list of a valid state in this form. */
  lemma {:induction false} AgreeIsDict(entries: map<Client, HoleEntry>, list: seq<HoleEntry>)
    requires Agree(entries, list)
    ensures entries == DictOf(list, |list|)
  {
    DictHolds(list, |list|);
    var d := DictOf(list, |list|);
    forall c | c in entries ensures c in d && d[c] == entries[c] {
      var j :| 0 <= j < |list| && list[j] == entries[c];
    }
    forall c | c in d ensures c in entries {
      var j :| 0 <= j < |list| && list[j].hole.client == c;
    }
  }

  /** While all entries beyond the `i`-th are being removed, the list need not hold the same entries as the
      dictionary, but it holds as many, with the same deadlines; and the `g` that are due first stay. */
  ghost predicate Shrinking(env: Env, s: State, all: seq<HoleEntry>, g: nat, i: nat) {
    && g <= i <= |all| && 0 < |all| && s.entries == DictOf(all, i)
    && |s.list| == i && (forall j :: 0 <= j < i ==> Deadline(s.list[j]) == Deadline(all[j]))
    && (forall j :: 0 <= j < g ==> s.list[j] == all[j])
    && RulesMatch(s.rules, all[..i]) && Shows(env, s.wall, s.rules)
    && s.timer == Some(Deadline(all[0]))
  }

  /** The holes due first, all at the same time: at the front of the list. */
  ghost predicate DueFirst(all: seq<HoleEntry>, g: nat) {
    && 0 < g <= |all| && SortedList(all) && ClientsDiffer(all)
    && (forall j :: 0 <= j < g ==> Deadline(all[j]) == Deadline(all[0]))
    && (g < |all| ==> Deadline(all[g]) > Deadline(all[0]))
  }

  lemma {:induction false} RulesMatchShrinks(rules: seq<Address>, all: seq<HoleEntry>, i: nat) returns (j: nat)
    requires 0 < i <= |all| && RulesMatch(rules, all[..i])
    ensures FirstRule(rules, all[i - 1].hole.client.address) == Some(j) && j < |rules|
    ensures RulesMatch(RemoveAt(rules, j), all[..i - 1])
  {
    HasRule(rules, all[..i], i - 1);
    j := FirstRule(rules, all[i - 1].hole.client.address).value;
    RulesWithout(rules, all[..i], i - 1, j);
    hide RulesMatch;
    assert RemoveAt(all[..i], i - 1) == all[..i - 1];
  }

  lemma {:induction false} SameDeadlinesRemoved(list: seq<HoleEntry>, all: seq<HoleEntry>, i: nat, p: nat)
    requires SortedList(all) && 0 < i <= |all| && |list| == i && p < i && Deadline(all[p]) == Deadline(all[i - 1])
    requires forall j :: 0 <= j < i ==> Deadline(list[j]) == Deadline(all[j])
    ensures forall k :: 0 <= k < i - 1 ==> Deadline(RemoveAt(list, p)[k]) == Deadline(all[k])
  {
    forall k | 0 <= k < i - 1 ensures Deadline(RemoveAt(list, p)[k]) == Deadline(all[k]) {
      if k >= p {
        assert RemoveAt(list, p)[k] == list[k + 1];
        assert Deadline(all[p]) <= Deadline(all[k]) <= Deadline(all[k + 1]) <= Deadline(all[i - 1]);
      }
    }
  }

  /** A list and a record of different lengths do not match. */
  lemma {:induction false} CountBreaks(s: State)
    requires |s.rules| != |s.list|
    ensures !Consistent(s)
  {
    if Consistent(s) { RulesCount(s); }
  }

  lemma {:induction false} RulesCountUpTo(rules: seq<Address>, all: seq<HoleEntry>, i: nat)
    requires i <= |all| && RulesMatch(rules, all[..i])
    ensures |rules| == i
  {
    assert |multiset(rules)| == |multiset(Map(all[..i], AddressOf()))|;
  }

  /** Removing an entry that is not due first leaves the timer alone. */
  lemma {:induction false} Shrinks(env: Env, s: State, all: seq<HoleEntry>, g: nat, i: nat, now: real)
    requires DueFirst(all, g) && g < i && Shrinking(env, s, all, g, i) && Smooth(env, s, 1)
    ensures var (s1, o) := RemovedOne(env, s, all[i - 1].hole.client, now);
      o == Done && Shrinking(env, s1, all, g, i - 1) && s1.made == s.made && s1.wall.ops == s.wall.ops + 3
  {
    hide Removed, RemovedOne, RulesMatch, Smooth, Shows;
    var e := all[i - 1];
    var p := LatePlace(env, s, all, g, i);
    var j := RulesMatchShrinks(s.rules, all, i);
    DictHolds(all, i);
    hide ClientsDiffer, SortedList, FirstEqual, FirstRule, DictOf;
    RemovedAs(env, s, e.hole.client, p, j);
    NotHeadGoes(env, s, e.hole.client, now);
    SameDeadlinesRemoved(s.list, all, i, p);
    FrontStays(s.list, p, g);
  }

  lemma {:induction false} NotHeadGoes(env: Env, s: State, client: Client, now: real)
    requires !IsHead(s, client) || Removed(env, s, client).1 != Done
    ensures RemovedOne(env, s, client, now) == Removed(env, s, client)
  {
    hide Removed;
  }

  /** When the firewall fails on the way, what is left does not fit together. */
  lemma {:induction false} ShrinkFails(env: Env, s: State, client: Client, all: seq<HoleEntry>, p: nat, i: nat,
                                       now: real)
    requires client in s.entries && FirstEqual(s.list, Deadline(s.entries[client])) == Some(p)
    requires i <= |all| && |s.list| == i && RulesMatch(s.rules, all[..i])
    requires Shows(env, s.wall, s.rules) && !Smooth(env, s, 1)
    ensures RemovedOne(env, s, client, now).1 == FirewallError && !Consistent(RemovedOne(env, s, client, now).0)
  {
    hide Removed, RemovedOne, Smooth, Shows, RulesMatch, Consistent, FirstEqual;
    RemovedNot(env, s, client, p, now);
    RulesCountUpTo(s.rules, all, i);
    CountBreaks(Removed(env, s, client).0);
  }

  lemma {:induction false} LatePlace(env: Env, s: State, all: seq<HoleEntry>, g: nat, i: nat) returns (p: nat)
    requires DueFirst(all, g) && g < i && Shrinking(env, s, all, g, i)
    ensures FirstEqual(s.list, Deadline(all[i - 1])) == Some(p)
    ensures g <= p < i && Deadline(all[p]) == Deadline(all[i - 1]) && s.list[0] != all[i - 1]
    ensures all[i - 1].hole.client in s.entries && s.entries[all[i - 1].hole.client] == all[i - 1]
    ensures !IsHead(s, all[i - 1].hole.client)
  {
    hide Shows, RulesMatch;
    DictHolds(all, i);
    assert Deadline(all[i - 1]) >= Deadline(all[g]);
    p := FirstEqual(s.list, Deadline(all[i - 1])).value;
  }

  lemma {:induction false} FrontStays(list: seq<HoleEntry>, p: nat, g: nat)
    requires g <= p < |list|
    ensures forall k :: 0 <= k < g ==> RemoveAt(list, p)[k] == list[k]
  {
  }

  /** The last `i` entries due first, when more than one is due first: each removal takes the entry that
      stands at the front, not the one asked for. */
  ghost predicate Crossed(env: Env, s: State, all: seq<HoleEntry>, g: nat, i: nat) {
    && i <= g <= |all| && 0 < |all| && s.entries == DictOf(all, i)
    && s.list == all[g - i..g] && RulesMatch(s.rules, all[..i])
    && Shows(env, s.wall, s.rules)
    && s.timer == Some(Deadline(all[0]))
  }

  lemma {:induction false} CrossedFront(env: Env, s: State, all: seq<HoleEntry>, g: nat, i: nat)
    requires DueFirst(all, g) && 0 < i && Crossed(env, s, all, g, i)
    ensures s.list != [] && s.list[0] == all[g - i] && FirstEqual(s.list, Deadline(all[i - 1])) == Some(0)
    ensures i - 1 < |all| && Deadline(all[i - 1]) == Deadline(all[0])
    ensures i < g ==> Deadline(all[i]) == Deadline(all[0])
  {
    hide Shows, RulesMatch;
  }

  lemma {:induction false} FrontIsLast(all: seq<HoleEntry>, g: nat, i: nat)
    requires DueFirst(all, g) && 0 < i <= g && 1 < g && all[g - i] == all[i - 1]
    ensures g - i == i - 1 && i < g
  {
    assert ClientsDiffer(all);
  }

  lemma {:induction false} CrossedEntries(env: Env, s: State, all: seq<HoleEntry>, g: nat, i: nat)
    requires DueFirst(all, g) && 0 < i && Crossed(env, s, all, g, i)
    ensures i <= g <= |all| && |s.list| == i && RulesMatch(s.rules, all[..i]) && Shows(env, s.wall, s.rules)
    ensures all[i - 1].hole.client in s.entries && s.entries[all[i - 1].hole.client] == all[i - 1]
    ensures i < g ==> all[i].hole.client !in s.entries
  {
    hide Shows, RulesMatch;
    DictHolds(all, i);
  }

  /** The state after a crossed removal, when the timer stays or is set again for the same time. */
  lemma {:induction false} StaysCrossed(env: Env, s: State, all: seq<HoleEntry>, g: nat, i: nat, j: nat)
    requires DueFirst(all, g) && 0 < i && Crossed(env, s, all, g, i) && s.list != [] && j < |s.rules|
    requires RulesMatch(RemoveAt(s.rules, j), all[..i - 1])
    requires Shows(env, Reduced(env, s, all[i - 1].hole.client, 0, j).wall,
                   Reduced(env, s, all[i - 1].hole.client, 0, j).rules)
    ensures Crossed(env, Reduced(env, s, all[i - 1].hole.client, 0, j), all, g, i - 1)
    ensures var s1 := Reduced(env, s, all[i - 1].hole.client, 0, j);
      && |s1.list| == i - 1 && (i > 1 ==> s1.list[0] == all[g - i + 1])
      && s1.entries == s.entries - {all[i - 1].hole.client}
      && (i < g ==> Deadline(all[i]) == Deadline(all[0]))
      && Crossed(env, s1.(timer := None).(timer := Some(Deadline(all[0]))), all, g, i - 1)
  {
    hide Shows, RulesMatch, ClientRemoved, Agree;
    DictHolds(all, i);
    assert RemoveAt(all[g - i..g], 0) == all[g - i + 1..g];
  }

  lemma {:induction false} IsHeadMeans(s: State, client: Client)
    ensures IsHead(s, client) <==> client in s.entries && s.list != [] && s.list[0] == s.entries[client]
  {
  }

  /** Either the state stays crossed, or the call ends in an exception and a broken state: the firewall fails, or
      catching up meets a hole that is no longer in the dictionary. */
  lemma {:induction false} Crosses(env: Env, s: State, all: seq<HoleEntry>, g: nat, i: nat, now: real)
    requires DueFirst(all, g) && 1 < g && 0 < i && Crossed(env, s, all, g, i)
    ensures var (s1, o) := RemovedOne(env, s, all[i - 1].hole.client, now);
      (o == Done && Crossed(env, s1, all, g, i - 1)) || (o != Done && !Consistent(s1))
  {
    hide *;
    CrossedFront(env, s, all, g, i);
    CrossedEntries(env, s, all, g, i);
    var e := all[i - 1];
    if Smooth(env, s, 1) {
      var j := RulesMatchShrinks(s.rules, all, i);
      RemovedAs(env, s, e.hole.client, 0, j);
      var s1 := Reduced(env, s, e.hole.client, 0, j);
      StaysCrossed(env, s, all, g, i, j);
      if s.list[0] == e {
        FrontIsLast(all, g, i);
        HeadLeadsTo(env, s, now, s1);
        OnlyGone(env, s1.(timer := None), all[i], now);
        GoneBreaks(s1.(timer := None));
      } else {
        IsHeadMeans(s, e.hole.client);
        NotHeadGoes(env, s, e.hole.client, now);
      }
    } else {
      ShrinkFails(env, s, e.hole.client, all, 0, i, now);
    }
  }

  /** Catching up when the earliest entry of the list is not in the dictionary. */
  lemma {:induction false} OnlyGone(env: Env, s: State, e: HoleEntry, now: real)
    requires s.list != [] && s.list[0] == e && e.hole.client !in s.entries && s.timer == None
    ensures CaughtUp(env, s, now)
         == if TimeLeft(e, now) <= 0.0 then (s, HoleError) else (s.(timer := Some(Deadline(e))), Done)
    ensures !Agree(s.entries, s.list)
  {
  }

  lemma {:induction false} GoneBreaks(s: State)
    requires !Agree(s.entries, s.list)
    ensures !Consistent(s)
  {
  }

  /** What is due first in a valid state. */
  lemma {:induction false} StartsShrinking(env: Env, s: State) returns (g: nat)
    requires Valid(env, s) && s.list != []
    ensures DueFirst(s.list, g) && Shrinking(env, s, s.list, g, |s.list|)
    ensures g > 1 <==> |s.list| > 1 && Deadline(s.list[1]) == Deadline(s.list[0])
  {
    hide Shows;
    g := Rank(s.list, Deadline(s.list[0]));
    AgreeIsDict(s.entries, s.list);
    assert s.list[..|s.list|] == s.list;
    if g > 1 { assert Deadline(s.list[0]) <= Deadline(s.list[1]); }
  }

  lemma {:induction false} SameLength(env: Env, s: State, all: seq<HoleEntry>, g: nat, i: nat)
    requires Shrinking(env, s, all, g, i)
    ensures g <= i <= |all| && Shows(env, s.wall, s.rules) && |s.list| == i && RulesMatch(s.rules, all[..i])
  {
  }

  /** All entries that are not due first go one by one, unless the firewall fails at one of them. */
  lemma {:induction false} ShrinksAll(env: Env, s: State, all: seq<HoleEntry>, g: nat, i: nat, now: real)
      returns (s1: State)
    requires DueFirst(all, g) && Shrinking(env, s, all, g, i)
    ensures g <= i <= |all|
    ensures Smooth(env, s, i - g) ==>
      && Shrinking(env, s1, all, g, g) && RemovedAll(env, s, all[..i], now) == RemovedAll(env, s1, all[..g], now)
      && s1.made == s.made && s1.wall.ops == s.wall.ops + 3 * (i - g)
    ensures !Smooth(env, s, i - g) ==> !Consistent(RemovedAll(env, s, all[..i], now).0)
    decreases i
  {
    hide *;
    SameLength(env, s, all, g, i);
    s1 := s;
    if g < i {
      RemovedAllStep(env, s, all, i, now);
      var (s0, o) := RemovedOne(env, s, all[i - 1].hole.client, now);
      if Smooth(env, s, 1) {
        Shrinks(env, s, all, g, i, now);
        SameLength(env, s0, all, g, i - 1);
        SmoothSplits(env, s, s0, 1, i - 1 - g);
        s1 := ShrinksAll(env, s0, all, g, i - 1, now);
      } else {
        SmoothSplits(env, s, s, 1, i - 1 - g);
        var p := LatePlace(env, s, all, g, i);
        ShrinkFails(env, s, all[i - 1].hole.client, all, p, i, now);
      }
    } else {
      PartsOfValid(env, s);
    }
  }

  lemma {:induction false} RemovedAllStep(env: Env, s: State, all: seq<HoleEntry>, i: nat, now: real)
    requires 0 < i <= |all|
    ensures var (s1, o) := RemovedOne(env, s, all[i - 1].hole.client, now);
      RemovedAll(env, s, all[..i], now) == if o != Done then (s1, o) else RemovedAll(env, s1, all[..i - 1], now)
  {
    hide RemovedOne;
    assert all[..i][..i - 1] == all[..i - 1];
  }

  lemma {:induction false} CrossedWithin(env: Env, s: State, all: seq<HoleEntry>, g: nat, i: nat)
    requires Crossed(env, s, all, g, i)
    ensures i <= g <= |all|
  {
    hide Shows, RulesMatch;
  }

  lemma {:induction false} CrossedAtEnd(env: Env, s: State, all: seq<HoleEntry>, g: nat, now: real)
    requires 1 < g && Crossed(env, s, all, g, 0)
    ensures !(Consistent(RemovedAll(env, s, all[..0], now).0) && Armed(RemovedAll(env, s, all[..0], now).0))
  {
    hide Shows, Consistent, RemovedOne;
    assert all[..0] == [];
  }

  /** Crossed removals never end cleanly. */
  lemma {:induction false} CrossesAll(env: Env, s: State, all: seq<HoleEntry>, g: nat, i: nat, now: real)
    requires DueFirst(all, g) && 1 < g && Crossed(env, s, all, g, i)
    ensures !(Consistent(RemovedAll(env, s, all[..i], now).0) && Armed(RemovedAll(env, s, all[..i], now).0))
    decreases i
  {
    CrossedWithin(env, s, all, g, i);
    hide *;
    if i > 0 {
      Crosses(env, s, all, g, i, now);
      RemovedAllStep(env, s, all, i, now);
      var (s1, o) := RemovedOne(env, s, all[i - 1].hole.client, now);
      if o == Done {
        CrossesAll(env, s1, all, g, i - 1, now);
      }
    } else {
      CrossedAtEnd(env, s, all, g, now);
    }
  }

  lemma {:induction false} LastGoesIs(env: Env, s: State, all: seq<HoleEntry>, now: real, j: nat)
    requires |all| > 0 && s.entries == map[all[0].hole.client := all[0]] && s.list == [all[0]]
    requires j < |s.rules| && |s.rules| == 1
    requires Removed(env, s, all[0].hole.client) == (Reduced(env, s, all[0].hole.client, 0, j), Done)
    ensures RemovedAll(env, s, all[..1], now)
         == (Initially(ClientRemoved(env, s.wall, all[0].hole.client.address).0).(made := s.made), Done)
  {
    var client := all[0].hole.client;
    var s1 := Reduced(env, s, client, 0, j);
    RemovedAllStep(env, s, all, 1, now);
    assert map[client := all[0]] - {client} == map[];
    assert s1.entries == map[] && s1.list == [] && s1.rules == [];
    hide Removed, ClientRemoved;
    HeadLeadsTo(env, s, now, s1);
    NothingLeft(env, s1.(timer := None), all, now);
  }

  /** One hole is left, and it is the earliest one. */
  lemma {:induction false} OneLeft(env: Env, s: State, all: seq<HoleEntry>)
    requires Shrinking(env, s, all, 1, 1)
    ensures s.entries == map[all[0].hole.client := all[0]] && s.list == [all[0]] && |s.rules| == 1
    ensures FirstEqual(s.list, Deadline(all[0])) == Some(0)
    ensures RulesMatch(s.rules, all[..1]) && Shows(env, s.wall, s.rules)
  {
    assert DictOf(all, 1) == DictOf(all, 0)[all[0].hole.client := all[0]];
    hide Shows, RulesMatch;
    RulesCountUpTo(s.rules, all, 1);
  }

  /** The last entry of all, when no other is due at the same time. */
  lemma {:induction false} LastGoes(env: Env, s: State, all: seq<HoleEntry>, now: real)
    requires DueFirst(all, 1) && Shrinking(env, s, all, 1, 1)
    ensures Smooth(env, s, 1) ==>
      var wall := ClientRemoved(env, s.wall, all[0].hole.client.address).0;
      && RemovedAll(env, s, all[..1], now) == (Initially(wall).(made := s.made), Done)
      && Shows(env, wall, []) && wall.ops == s.wall.ops + 3
    ensures !Smooth(env, s, 1) ==> !Consistent(RemovedAll(env, s, all[..1], now).0)
  {
    var client := all[0].hole.client;
    OneLeft(env, s, all);
    hide Removed, RemovedOne, Smooth, Shows, Shrinking, DueFirst, RulesMatch, FirstEqual, Consistent, RemovedAll,
        ClientRemoved;
    if Smooth(env, s, 1) {
      var j := RulesMatchShrinks(s.rules, all, 1);
      RemovedAs(env, s, client, 0, j);
      LastGoesIs(env, s, all, now, j);
      assert RemoveAt(s.rules, j) == [];
    } else {
      RemovedAllStep(env, s, all, 1, now);
      ShrinkFails(env, s, client, all, 0, 1, now);
    }
  }

  lemma {:induction false} NothingLeft(env: Env, s: State, all: seq<HoleEntry>, now: real)
    requires s.list == []
    ensures CaughtUp(env, s, now) == (s, Done) && RemovedAll(env, s, all[..0], now) == (s, Done)
  {
  }

  /** Whether `RemovedAll` gets through: at most one hole is due first. */
  predicate OneDueFirst(s: State) {
    |s.list| <= 1 || Deadline(s.list[0]) < Deadline(s.list[1])
  }

  /** Removing all holes, overdue ones too, removes each of them once and leaves nothing and no timer, if
      only one hole is due first and the firewall fails at none of them. */
  lemma {:induction false} RemovingAllEmpties(env: Env, s: State, now: real)
    requires Valid(env, s) && OneDueFirst(s)
    ensures Smooth(env, s, |s.list|) ==>
      var (s1, o) := RemovedAll(env, s, s.list, now);
      && o == Done && s1 == Initially(s1.wall).(made := s.made) && Valid(env, s1)
      && s1.wall.ops == s.wall.ops + 3 * |s.list|
    ensures !Smooth(env, s, |s.list|) ==>
      !HolesAgree(RemovedAll(env, s, s.list, now).0) && !Valid(env, RemovedAll(env, s, s.list, now).0)
  {
    var all := s.list;
    var n := |all|;
    assert all[..n] == all;
    PartsOfValid(env, s);
    PartsOfValid(env, RemovedAll(env, s, all, now).0);
    if all == [] {
      RulesCount(s);
      AgreeIsDict(s.entries, s.list);
    } else {
      var g := StartsShrinking(env, s);
      assert g == 1;
      hide Valid, Consistent, Smooth, Shows, DueFirst, Shrinking, RemovedAll, ClientRemoved;
      var s1 := ShrinksAll(env, s, all, 1, n, now);
      SmoothSplits(env, s, s1, n - 1, 1);
      if Smooth(env, s, n - 1) {
        SameLength(env, s1, all, 1, 1);
        LastGoes(env, s1, all, now);
        EmptyIsConsistent(ClientRemoved(env, s1.wall, all[0].hole.client.address).0, s.made);
      }
    }
  }

  lemma {:induction false} EmptyIsConsistent(wall: Table, made: nat)
    ensures Consistent(Initially(wall).(made := made)) && Armed(Initially(wall).(made := made))
  {
  }

  /** If two holes are due first at the same time, removing all leaves a timer or a rule behind. */
  lemma {:induction false} RemovingAllCrosses(env: Env, s: State, now: real)
    requires Valid(env, s) && !OneDueFirst(s)
    ensures !HolesAgree(RemovedAll(env, s, s.list, now).0) && !Valid(env, RemovedAll(env, s, s.list, now).0)
  {
    var all := s.list;
    var n := |all|;
    var g := StartsShrinking(env, s);
    assert all[..n] == all;
    PartsOfValid(env, RemovedAll(env, s, all, now).0);
    hide Valid, Consistent, Armed, Smooth, RemovedAll, Shows, DueFirst;
    var s1 := ShrinksAll(env, s, all, g, n, now);
    if Smooth(env, s, n - g) {
      StartsCrossed(env, s1, all, g);
      CrossesAll(env, s1, all, g, g, now);
    }
  }

  lemma {:induction false} StartsCrossed(env: Env, s: State, all: seq<HoleEntry>, g: nat)
    requires Shrinking(env, s, all, g, g)
    ensures Crossed(env, s, all, g, g)
  {
    hide Shows, RulesMatch;
    assert all[g - g..g] == s.list;
  }
}
