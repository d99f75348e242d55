/** What a failing call leaves behind.  An edit made before the failure stays in the snapshot, and the next commit,
    whoever makes it, puts it in force. */
module Leftovers {
  import opened Names
  import opened Seqs
  import opened Rulesets
  import opened Mangle
  import opened Wall
  import opened Items
  import opened Schedule
  import opened ScheduleRuns

  // -------------------------------------------------------------------------------- an address's items

  /** The items of one address, in their order. */
  function Own(items: seq<Item>, a: Address): seq<Item> {
    if items == [] then []
    else (if items[0].address == a then [items[0]] else []) + Own(items[1..], a)
  }

  lemma {:induction false} OwnInFront(items: seq<Item>, x: Item, a: Address)
    ensures Own([x] + items, a) == if x.address == a then [x] + Own(items, a) else Own(items, a)
  {
    assert ([x] + items)[1..] == items;
  }

  lemma {:induction false} OwnHolds(items: seq<Item>, x: Item)
    ensures x in items <==> x in Own(items, x.address)
  {
    if items != [] {
      OwnHolds(items[1..], x);
      assert items == [items[0]] + items[1..];
    }
  }

  lemma {:induction false} WithoutFrom(items: seq<Item>, x: Item)
    requires items != []
    ensures Without(items, x) == if items[0] == x then items[1..] else [items[0]] + Without(items[1..], x)
  {
    if items[0] != x && FirstItem(items[1..], x).Some? {
      var i := FirstItem(items[1..], x).value;
      assert RemoveAt(items, i + 1) == [items[0]] + RemoveAt(items[1..], i);
    }
  }

  lemma {:induction false} NothingOwned(x: Item, a: Address)
    ensures Own([], a) == [] && Without([], x) == []
  {
  }

  lemma {:induction false} WithoutInFront(items: seq<Item>, y: Item, x: Item)
    ensures Without([y] + items, x) == if y == x then items else [y] + Without(items, x)
  {
    WithoutFrom([y] + items, x);
    hide Without;
    assert ([y] + items)[1..] == items;
  }

  /** Taking an item out takes it from its own address's items. */
  lemma {:induction false} OwnWithout(items: seq<Item>, x: Item, a: Address)
    ensures Own(Without(items, x), a) == if x.address == a then Without(Own(items, a), x) else Own(items, a)
  {
    if items == [] {
      NothingOwned(x, a);
    } else {
      var y, rest := items[0], items[1..];
      OwnWithout(rest, x, a);
      assert items == [y] + rest;
      WithoutFrom(items, x);
      OwnInFront(rest, y, a);
      OwnInFront(Without(rest, x), y, a);
      hide Own, Without;
      WithoutInFront(Own(rest, a), y, x);
    }
  }

  lemma {:induction false} OwnPair(items: seq<Item>, b: Address, a: Address)
    ensures Own([Log(b), Accept(b)] + items, a) == if b == a then [Log(a), Accept(a)] + Own(items, a) else Own(items, a)
  {
    OwnInFront(items, Accept(b), a);
    OwnInFront([Accept(b)] + items, Log(b), a);
    hide Own;
    assert [Log(b)] + ([Accept(b)] + items) == [Log(b), Accept(b)] + items;
    assert [Log(b)] + ([Accept(b)] + Own(items, a)) == [Log(b), Accept(b)] + Own(items, a);
  }

  /** An address that is no source owns nothing. */
  lemma {:induction false} OwnsNothing(sources: seq<Address>, a: Address)
    requires a !in sources
    ensures Own(PairItems(sources), a) == []
  {
    if sources != [] {
      var first, rest := sources[0], sources[1..];
      assert sources == [first] + rest;
      OwnsNothing(rest, a);
      OwnPair(PairItems(rest), first, a);
      hide Own;
    }
  }

  /** Source `i` is the only one with its address. */
  predicate OnlyAt(sources: seq<Address>, i: nat) {
    i < |sources| && forall j :: 0 <= j < |sources| && j != i ==> sources[j] != sources[i]
  }

  /** An address that is a source once owns one pair. */
  lemma {:induction false} OwnsOnePair(sources: seq<Address>, i: nat)
    requires OnlyAt(sources, i)
    ensures Own(PairItems(sources), sources[i]) == [Log(sources[i]), Accept(sources[i])]
  {
    var first, rest, a := sources[0], sources[1..], sources[i];
    OwnPair(PairItems(rest), first, a);
    if i == 0 {
      assert forall j :: 0 <= j < |rest| ==> rest[j] == sources[j + 1];
      OwnsNothing(rest, a);
      assert [Log(a), Accept(a)] + [] == [Log(a), Accept(a)];
    } else {
      assert forall j :: 0 <= j < |rest| ==> rest[j] == sources[j + 1];
      OwnsOnePair(rest, i - 1);
    }
  }

  // --------------------------------------------------------------------------- what each failure leaves

  /** What is edited in when letting a client in fails at operation `k`. */
  function LeftIn(a: Address, k: nat): seq<Item> {
    if k == 0 then [] else if k == 1 then [Accept(a)] else [Log(a), Accept(a)]
  }

  /** What is left of the items when shutting a client out fails at operation `k`. */
  function LeftOut(items: seq<Item>, a: Address, k: nat): seq<Item> {
    if k == 0 then items else if k == 1 then Without(items, Log(a)) else Without(Without(items, Log(a)), Accept(a))
  }

  /** The table in force stays as it is; the edits made before the failure stay in the snapshot. */
  lemma {:induction false} AddingLeaves(env: Env, d: Desk, a: Address, k: nat)
    requires FailsAt(env, d.ops, k)
    ensures LetIn(env, d, a) == (Desk(LeftIn(a, k) + d.edited, d.inForce, d.ops + k + 1), false)
  {
    FailureIs(env, d.ops, k);
    hide FailsAt;
    assert [Log(a)] + ([Accept(a)] + d.edited) == [Log(a), Accept(a)] + d.edited && [] + d.edited == d.edited;
  }

  lemma {:induction false} DropsWhen(env: Env, d: Desk, x: Item)
    requires x in d.edited
    ensures Dropped(env, d, x) == if env.fault(d.ops) then (d.(ops := d.ops + 1), false)
                                  else (d.(edited := Without(d.edited, x), ops := d.ops + 1), true)
  {
    hide Without;
  }

  lemma {:induction false} ShutOutIs(env: Env, d: Desk, a: Address)
    ensures var (d1, ok1) := Dropped(env, d, Log(a)); var (d2, ok2) := Dropped(env, d1, Accept(a));
      ShutOut(env, d, a) == if !ok1 then (d1, false) else if !ok2 then (d2, false)
                            else if env.fault(d2.ops) then (d2.(ops := d2.ops + 1), false)
                            else (d2.(inForce := d2.edited, ops := d2.ops + 1), true)
  {
    hide Dropped;
  }

  lemma {:induction false} LeftOutIs(items: seq<Item>, a: Address, k: nat)
    ensures LeftOut(items, a, k) ==
      if k == 0 then items else if k == 1 then Without(items, Log(a)) else Without(Without(items, Log(a)), Accept(a))
  {
  }

  lemma {:induction false} AcceptStays(items: seq<Item>, a: Address)
    requires Accept(a) in items
    ensures Accept(a) in Without(items, Log(a))
  {
    KeepsOther(items, Log(a), Accept(a));
    hide Without;
  }

  lemma {:induction false} RemovingLeaves(env: Env, d: Desk, a: Address, k: nat)
    requires FailsAt(env, d.ops, k) && Log(a) in d.edited && Accept(a) in d.edited
    ensures ShutOut(env, d, a) == (Desk(LeftOut(d.edited, a, k), d.inForce, d.ops + k + 1), false)
  {
    FailureIs(env, d.ops, k);
    AcceptStays(d.edited, a);
    hide *;
    DropsWhen(env, d, Log(a));
    ShutOutIs(env, d, a);
    LeftOutIs(d.edited, a, k);
    if k > 0 { DropsWhen(env, Dropped(env, d, Log(a)).0, Accept(a)); }
  }

  lemma {:induction false} KeepsOther(items: seq<Item>, x: Item, y: Item)
    requires x != y && y in items
    ensures y in Without(items, x)
  {
    if FirstItem(items, x).Some? {
      var i := FirstItem(items, x).value;
      var j :| 0 <= j < |items| && items[j] == y;
      assert RemoveAt(items, i)[if j < i then j else j - 1] == y;
    }
  }

  // ------------------------------------------------------------------------------- the calls of others

  datatype Call = In(address: Address) | Out(address: Address)

  function Called(env: Env, d: Desk, c: Call): (Desk, bool) {
    match c
    case In(a) => LetIn(env, d, a)
    case Out(a) => ShutOut(env, d, a)
  }

  function DeskAfter(env: Env, d: Desk, calls: seq<Call>): Desk {
    if calls == [] then d
    else Called(env, DeskAfter(env, d, calls[..|calls| - 1]), calls[|calls| - 1]).0
  }

  /** Some call gets through, and so commits. */
  predicate SomeCommits(env: Env, d: Desk, calls: seq<Call>) {
    calls != [] &&
      (SomeCommits(env, d, calls[..|calls| - 1])
       || Called(env, DeskAfter(env, d, calls[..|calls| - 1]), calls[|calls| - 1]).1)
  }

  /** No call is about address `a`. */
  predicate Elsewhere(calls: seq<Call>, a: Address) {
    forall i :: 0 <= i < |calls| ==> calls[i].address != a
  }

  lemma {:induction false} PutElsewhere(env: Env, d: Desk, x: Item, a: Address)
    requires x.address != a
    ensures var (d1, ok) := Put(env, d, x); Own(d1.edited, a) == Own(d.edited, a) && d1.inForce == d.inForce
    ensures var (d1, ok) := Dropped(env, d, x); Own(d1.edited, a) == Own(d.edited, a) && d1.inForce == d.inForce
  {
    OwnInFront(d.edited, x, a);
    OwnWithout(d.edited, x, a);
    hide Own, Without;
  }

  lemma {:induction false} LetInIs(env: Env, d: Desk, a: Address)
    ensures var (d1, ok1) := Put(env, d, Accept(a)); var (d2, ok2) := Put(env, d1, Log(a));
      LetIn(env, d, a) == if !ok1 then (d1, false) else if !ok2 then (d2, false)
                          else if env.fault(d2.ops) then (d2.(ops := d2.ops + 1), false)
                          else (d2.(inForce := d2.edited, ops := d2.ops + 1), true)
  {
    hide Put;
  }

  lemma {:induction false} LetInElsewhere(env: Env, d: Desk, b: Address, a: Address)
    requires b != a
    ensures var (d1, ok) := LetIn(env, d, b);
      && Own(d1.edited, a) == Own(d.edited, a)
      && Own(d1.inForce, a) == if ok then Own(d.edited, a) else Own(d.inForce, a)
  {
    PutElsewhere(env, d, Accept(b), a);
    PutElsewhere(env, Put(env, d, Accept(b)).0, Log(b), a);
    hide *;
    LetInIs(env, d, b);
  }

  lemma {:induction false} ShutOutElsewhere(env: Env, d: Desk, b: Address, a: Address)
    requires b != a
    ensures var (d1, ok) := ShutOut(env, d, b);
      && Own(d1.edited, a) == Own(d.edited, a)
      && Own(d1.inForce, a) == if ok then Own(d.edited, a) else Own(d.inForce, a)
  {
    PutElsewhere(env, d, Log(b), a);
    PutElsewhere(env, Dropped(env, d, Log(b)).0, Accept(b), a);
    hide *;
    ShutOutIs(env, d, b);
  }

  /** A call for another address leaves an address's items alone, and puts them in force if it gets through. */
  lemma {:induction false} CallElsewhere(env: Env, d: Desk, c: Call, a: Address)
    requires c.address != a
    ensures var (d1, ok) := Called(env, d, c);
      && Own(d1.edited, a) == Own(d.edited, a)
      && Own(d1.inForce, a) == if ok then Own(d.edited, a) else Own(d.inForce, a)
  {
    LetInElsewhere(env, d, c.address, a);
    ShutOutElsewhere(env, d, c.address, a);
    hide Own, LetIn, ShutOut;
  }

  /** However many calls for other addresses follow, and whatever of them fails: the items of an address stay as they
      are in the snapshot, and they come in force just when one of the calls gets through. */
  lemma {:induction false} OthersPublish(env: Env, d: Desk, calls: seq<Call>, a: Address)
    requires Elsewhere(calls, a)
    ensures var d1 := DeskAfter(env, d, calls);
      && Own(d1.edited, a) == Own(d.edited, a)
      && Own(d1.inForce, a) == if SomeCommits(env, d, calls) then Own(d.edited, a) else Own(d.inForce, a)
  {
    hide Own, Called;
    if calls != [] {
      var n := |calls| - 1;
      OthersPublish(env, d, calls[..n], a);
      CallElsewhere(env, DeskAfter(env, d, calls[..n]), calls[n], a);
    }
  }

  lemma {:induction false} OwnLeftIn(items: seq<Item>, a: Address, k: nat)
    requires Own(items, a) == []
    ensures Own(LeftIn(a, k) + items, a) == LeftIn(a, k)
  {
    OwnInFront(items, Accept(a), a);
    OwnInFront([Accept(a)] + items, Log(a), a);
    assert [Log(a)] + ([Accept(a)] + items) == [Log(a), Accept(a)] + items && [] + items == items;
    hide Own;
  }

  /** A client that has no rules is let in, and that fails at operation `k`.  Its accept rule comes in force with the
      next call for another address that gets through if `k` is not the first operation, its log rule if `k` is the
      last one; and not otherwise. */
  lemma {:induction false} RefusedAddComesInForce(env: Env, d: Desk, a: Address, k: nat, calls: seq<Call>)
    requires FailsAt(env, d.ops, k) && Own(d.edited, a) == Own(d.inForce, a) == [] && Elsewhere(calls, a)
    ensures !LetIn(env, d, a).1
    ensures var d1 := LetIn(env, d, a).0; var d2 := DeskAfter(env, d1, calls);
      && (Accept(a) in d2.inForce <==> k >= 1 && SomeCommits(env, d1, calls))
      && (Log(a) in d2.inForce <==> k == 2 && SomeCommits(env, d1, calls))
  {
    var d1 := LetIn(env, d, a).0;
    AddingLeaves(env, d, a, k);
    FailureIs(env, d.ops, k);
    hide Own, LetIn, DeskAfter, SomeCommits, FailsAt;
    OwnLeftIn(d.edited, a, k);
    OthersPublish(env, d1, calls, a);
    OwnHolds(DeskAfter(env, d1, calls).inForce, Accept(a));
    OwnHolds(DeskAfter(env, d1, calls).inForce, Log(a));
  }

  /** A client that has one pair of rules is shut out, and that fails at operation `k`.  It goes on being let through
      until the next call for another address gets through, and from then on unless `k` is the last operation; it is
      no more logged if `k` is not the first. */
  lemma {:induction false} RefusedRemovalComesInForce(env: Env, d: Desk, a: Address, k: nat, calls: seq<Call>)
    requires FailsAt(env, d.ops, k) && Elsewhere(calls, a)
    requires Own(d.edited, a) == Own(d.inForce, a) == [Log(a), Accept(a)]
    ensures !ShutOut(env, d, a).1
    ensures var d1 := ShutOut(env, d, a).0; var d2 := DeskAfter(env, d1, calls);
      && (Accept(a) in d2.inForce <==> k <= 1 || !SomeCommits(env, d1, calls))
      && (Log(a) in d2.inForce <==> k == 0 || !SomeCommits(env, d1, calls))
  {
    var d1 := ShutOut(env, d, a).0;
    OwnHolds(d.edited, Log(a));
    OwnHolds(d.edited, Accept(a));
    RemovingLeaves(env, d, a, k);
    OwnWithout(d.edited, Log(a), a);
    OwnWithout(Without(d.edited, Log(a)), Accept(a), a);
    PairLoses(a);
    assert Own(d1.edited, a) == if k == 0 then [Log(a), Accept(a)] else if k == 1 then [Accept(a)] else [];
    hide Own, ShutOut, DeskAfter, SomeCommits, FailsAt, Without;
    OthersPublish(env, d1, calls, a);
    OwnHolds(DeskAfter(env, d1, calls).inForce, Accept(a));
    OwnHolds(DeskAfter(env, d1, calls).inForce, Log(a));
  }

  lemma {:induction false} PairLoses(a: Address)
    ensures Without([Log(a), Accept(a)], Log(a)) == [Accept(a)] && Without([Accept(a)], Accept(a)) == []
  {
    WithoutInFront([Accept(a)], Log(a), Log(a));
    WithoutInFront([], Accept(a), Accept(a));
  }

  // ---------------------------------------------------------------------------- the calls of a scheduler

  /** No hole in the list is for address `a`, if one is given. */
  predicate NotListed(list: seq<HoleEntry>, a: Option<Address>) {
    forall i :: 0 <= i < |list| ==> Some(list[i].hole.client.address) != a
  }

  predicate AllElsewhere(calls: seq<Call>, a: Option<Address>) {
    forall i :: 0 <= i < |calls| ==> Some(calls[i].address) != a
  }

  /** The event is not about address `a`. */
  predicate Spares(ev: Event, a: Option<Address>) {
    match ev
    case Add(hole) => Some(hole.client.address) != a
    case Remove(client) => Some(client.address) != a
    case _ => true
  }

  /** From state `s` to state `s1` the scheduler has made just these calls, none about address `a`; the list is still
      free of `a`, and no client at `a` has left the dictionary. */
  ghost predicate Made(env: Env, s: State, s1: State, d: Desk, calls: seq<Call>, a: Option<Address>) {
    && Stands(env, s1.wall, DeskAfter(env, d, calls)) && AllElsewhere(calls, a) && NotListed(s1.list, a)
    && (forall c: Client :: Some(c.address) == a ==> (c in s1.entries <==> c in s.entries))
  }

  lemma {:induction false} NoCalls(env: Env, s: State, d: Desk, a: Option<Address>, timer: Option<real>)
    requires Stands(env, s.wall, d) && NotListed(s.list, a)
    ensures Made(env, s, s, d, [], a) && Made(env, s, s.(timer := timer), d, [], a)
  {
    hide Stands;
  }

  lemma {:induction false} CallsConcat(env: Env, d: Desk, calls: seq<Call>, more: seq<Call>)
    ensures DeskAfter(env, d, calls + more) == DeskAfter(env, DeskAfter(env, d, calls), more)
    ensures SomeCommits(env, d, calls + more) <==>
      SomeCommits(env, d, calls) || SomeCommits(env, DeskAfter(env, d, calls), more)
  {
    hide Called;
    if more == [] {
      assert calls + more == calls;
    } else {
      CallsConcat(env, d, calls, more[..|more| - 1]);
      assert (calls + more)[..|calls + more| - 1] == calls + more[..|more| - 1];
    }
  }

  lemma {:induction false} MadeMore(env: Env, s: State, s1: State, s2: State, d: Desk, calls: seq<Call>,
                                    more: seq<Call>, a: Option<Address>)
    requires Made(env, s, s1, d, calls, a) && Made(env, s1, s2, DeskAfter(env, d, calls), more, a)
    ensures Made(env, s, s2, d, calls + more, a)
  {
    CallsConcat(env, d, calls, more);
    hide Stands, DeskAfter, SomeCommits;
  }

  lemma {:induction false} NotListedRemoved(list: seq<HoleEntry>, i: nat, a: Option<Address>)
    requires NotListed(list, a) && i < |list|
    ensures NotListed(RemoveAt(list, i), a)
  {
  }

  lemma {:induction false} OneCall(env: Env, d: Desk, c: Call)
    ensures DeskAfter(env, d, [c]) == Called(env, d, c).0 && (SomeCommits(env, d, [c]) <==> Called(env, d, c).1)
  {
    hide Called;
    assert [c][..0] == [];
  }

  lemma {:induction false} RemovedWall(env: Env, s: State, client: Client, p: nat)
    requires client in s.entries && FirstEqual(s.list, Deadline(s.entries[client])) == Some(p)
    ensures var s1 := Removed(env, s, client).0;
      && s1.wall == ClientRemoved(env, s.wall, client.address).0 && s1.list == RemoveAt(s.list, p)
      && s1.entries == s.entries - {client}
  {
    hide ClientRemoved, RemoveAt;
  }

  lemma {:induction false} CalledIs(env: Env, d: Desk, a: Address)
    ensures Called(env, d, In(a)) == LetIn(env, d, a) && Called(env, d, Out(a)) == ShutOut(env, d, a)
  {
  }

  lemma {:induction false} MadeOne(env: Env, s: State, s1: State, d: Desk, call: Call, client: Client,
                                   a: Option<Address>)
    requires Stands(env, s1.wall, DeskAfter(env, d, [call])) && Some(call.address) != a && NotListed(s1.list, a)
    requires Some(client.address) != a && (s1.entries == s.entries - {client}
                                           || s1.entries.Keys == s.entries.Keys + {client})
    ensures Made(env, s, s1, d, [call], a)
  {
    hide Stands, DeskAfter, NotListed;
  }

  lemma {:induction false} RemovedCallsOut(env: Env, s: State, client: Client, d: Desk, a: Option<Address>)
    requires Stands(env, s.wall, d) && NotListed(s.list, a) && Some(client.address) != a
    requires client in s.entries && s.list != [] && FirstEqual(s.list, Deadline(s.entries[client])).Some?
    ensures Made(env, s, Removed(env, s, client).0, d, [Out(client.address)], a)
  {
    var p := FirstEqual(s.list, Deadline(s.entries[client])).value;
    RemovedWall(env, s, client, p);
    NotListedRemoved(s.list, p, a);
    OneCall(env, d, Out(client.address));
    CalledIs(env, d, client.address);
    hide *;
    RemovingActs(env, s.wall, d, client.address);
    MadeOne(env, s, Removed(env, s, client).0, d, Out(client.address), client, a);
  }

  /** Removing one client calls the firewall at most once. */
  lemma {:induction false} RemovedCalls(env: Env, s: State, client: Client, d: Desk, a: Option<Address>)
      returns (calls: seq<Call>)
    requires Stands(env, s.wall, d) && NotListed(s.list, a) && Some(client.address) != a
    ensures Made(env, s, Removed(env, s, client).0, d, calls, a)
  {
    calls := [];
    hide ClientRemoved, FirstEqual;
    NoCalls(env, s, d, a, None);
    if client in s.entries && s.list != [] && FirstEqual(s.list, Deadline(s.entries[client])).Some? {
      calls := [Out(client.address)];
      RemovedCallsOut(env, s, client, d, a);
    } else {
      hide Stands;
    }
  }

  lemma {:induction false} CaughtUpCalls(env: Env, s: State, now: real, d: Desk, a: Option<Address>)
      returns (calls: seq<Call>)
    requires Stands(env, s.wall, d) && NotListed(s.list, a)
    ensures Made(env, s, CaughtUp(env, s, now).0, d, calls, a)
    decreases |s.list|
  {
    hide Stands, Removed, DeskAfter, Made;
    if s.list == [] {
      calls := [];
      NoCalls(env, s, d, a, None);
    } else if TimeLeft(s.list[0], now) <= 0.0 {
      var client := s.list[0].hole.client;
      calls := RemovedCalls(env, s, client, d, a);
      var s1 := Removed(env, s, client).0;
      MadeMeans(env, s, s1, d, calls, a);
      if Removed(env, s, client).1 == Done {
        RemovedShorter(env, s, client);
        var more := CaughtUpCalls(env, s1, now, DeskAfter(env, d, calls), a);
        MadeMore(env, s, s1, CaughtUp(env, s1, now).0, d, calls, more, a);
        calls := calls + more;
      }
    } else {
      calls := [];
      NoCalls(env, s, d, a, Some(now + TimeLeft(s.list[0], now)));
    }
  }

  lemma {:induction false} MadeMeans(env: Env, s: State, s1: State, d: Desk, calls: seq<Call>, a: Option<Address>)
    requires Made(env, s, s1, d, calls, a)
    ensures Stands(env, s1.wall, DeskAfter(env, d, calls)) && NotListed(s1.list, a)
  {
    hide Stands;
  }

  lemma {:induction false} RemovedShorter(env: Env, s: State, client: Client)
    ensures Removed(env, s, client).1 == Done ==> |Removed(env, s, client).0.list| < |s.list|
  {
    hide ClientRemoved;
  }

  lemma {:induction false} RemovedOneCalls(env: Env, s: State, client: Client, now: real, d: Desk, a: Option<Address>)
      returns (calls: seq<Call>)
    requires Stands(env, s.wall, d) && NotListed(s.list, a) && Some(client.address) != a
    ensures Made(env, s, RemovedOne(env, s, client, now).0, d, calls, a)
  {
    hide Stands, Removed, DeskAfter, Made, CaughtUp, IsHead;
    calls := RemovedCalls(env, s, client, d, a);
    var (s1, o) := Removed(env, s, client);
    MadeMeans(env, s, s1, d, calls, a);
    if o == Done && IsHead(s, client) {
      var s2 := s1.(timer := None);
      NoCalls(env, s1, DeskAfter(env, d, calls), a, None);
      MadeMore(env, s, s1, s2, d, calls, [], a);
      assert calls + [] == calls;
      var more := CaughtUpCalls(env, s2, now, DeskAfter(env, d, calls), a);
      MadeMore(env, s, s2, CaughtUp(env, s2, now).0, d, calls, more, a);
      calls := calls + more;
    }
  }

  lemma {:induction false} RemovedAllCalls(env: Env, s: State, snapshot: seq<HoleEntry>, now: real, d: Desk,
                                           a: Option<Address>)
    returns (calls: seq<Call>)
    requires Stands(env, s.wall, d) && NotListed(s.list, a) && NotListed(snapshot, a)
    ensures Made(env, s, RemovedAll(env, s, snapshot, now).0, d, calls, a)
    decreases |snapshot|
  {
    hide Stands, RemovedOne, DeskAfter, Made;
    if snapshot == [] {
      calls := [];
      NoCalls(env, s, d, a, None);
    } else {
      var client, front := snapshot[|snapshot| - 1].hole.client, snapshot[..|snapshot| - 1];
      calls := RemovedOneCalls(env, s, client, now, d, a);
      var (s1, o) := RemovedOne(env, s, client, now);
      MadeMeans(env, s, s1, d, calls, a);
      if o == Done {
        var more := RemovedAllCalls(env, s1, front, now, DeskAfter(env, d, calls), a);
        MadeMore(env, s, s1, RemovedAll(env, s1, front, now).0, d, calls, more, a);
        calls := calls + more;
      }
    }
  }

  lemma {:induction false} NotListedPutIn(env: Env, s: State, hole: Hole, now: real, a: Option<Address>)
    requires NotListed(s.list, a) && Some(hole.client.address) != a
    ensures NotListed(PutIn(env, s, hole, now).list, a)
  {
    hide Rank, ClientAdded;
  }

  /** The state between letting the client in and looking for overdue holes. */
  lemma {:induction false} PutInCalls(env: Env, s: State, hole: Hole, now: real, d: Desk, a: Option<Address>)
    requires Stands(env, s.wall, d) && NotListed(s.list, a) && Some(hole.client.address) != a
             && hole.client !in s.entries
    ensures ClientAdded(env, s.wall, hole.client.address).1 ==>
      && Made(env, s, PutIn(env, s, hole, now), d, [In(hole.client.address)], a)
      && Made(env, s, PutIn(env, s, hole, now).(timer := None), d, [In(hole.client.address)], a)
      && SomeCommits(env, d, [In(hole.client.address)])
  {
    OneCall(env, d, In(hole.client.address));
    CalledIs(env, d, hole.client.address);
    NotListedPutIn(env, s, hole, now, a);
    var s1 := PutIn(env, s, hole, now);
    assert s1.entries.Keys == s.entries.Keys + {hole.client};
    assert s1.wall == ClientAdded(env, s.wall, hole.client.address).0 by { hide ClientAdded, Rank, InsertAt; }
    hide *;
    AddingActs(env, s.wall, d, hole.client.address);
    MadeOne(env, s, s1, d, In(hole.client.address), hole.client, a);
    MadeOne(env, s, s1.(timer := None), d, In(hole.client.address), hole.client, a);
  }

  lemma {:induction false} RefusedCalls(env: Env, s: State, hole: Hole, now: real, d: Desk, a: Option<Address>)
    requires Stands(env, s.wall, d) && NotListed(s.list, a) && Some(hole.client.address) != a
             && hole.client !in s.entries
    requires !ClientAdded(env, s.wall, hole.client.address).1
    ensures Made(env, s, Added(env, s, hole, now).0, d, [In(hole.client.address)], a)
  {
    OneCall(env, d, In(hole.client.address));
    CalledIs(env, d, hole.client.address);
    hide *;
    AddingActs(env, s.wall, d, hole.client.address);
    RefusedAddLeaves(env, s, hole, now);
    MadeOne(env, s, Added(env, s, hole, now).0, d, In(hole.client.address), hole.client, a);
  }

  /** Letting another client in calls the firewall once for it, and gets through or not. */
  lemma {:induction false} AddedCalls(env: Env, s: State, hole: Hole, now: real, d: Desk, a: Option<Address>)
      returns (calls: seq<Call>)
    requires Stands(env, s.wall, d) && NotListed(s.list, a) && Some(hole.client.address) != a
    ensures Made(env, s, Added(env, s, hole, now).0, d, calls, a)
    ensures Added(env, s, hole, now).1 == Done ==> SomeCommits(env, d, calls)
  {
    if hole.client in s.entries {
      calls := [];
      hide Stands, ClientAdded;
      NoCalls(env, s, d, a, None);
    } else {
      calls := [In(hole.client.address)];
      hide *;
      PutInCalls(env, s, hole, now, d, a);
      if ClientAdded(env, s.wall, hole.client.address).1 {
        AddedIs(env, s, hole, now);
        if Earliest(env, s, hole, now) {
          var s1 := PutIn(env, s, hole, now).(timer := None);
          MadeMeans(env, s, s1, d, calls, a);
          var more := CaughtUpCalls(env, s1, now, DeskAfter(env, d, calls), a);
          MadeMore(env, s, s1, CaughtUp(env, s1, now).0, d, calls, more, a);
          CallsConcat(env, d, calls, more);
          calls := calls + more;
        }
      } else {
        RefusedCalls(env, s, hole, now, d, a);
        RefusedAddLeaves(env, s, hole, now);
      }
    }
  }

  /** The event lets a client in. */
  predicate LetsIn(env: Env, s: State, ev: Event, now: real) {
    ev.Add? && Added(env, s, ev.hole, now).1 == Done
  }

  /** Some event of the run lets a client in. */
  predicate LetsSomebodyIn(env: Env, s: State, evs: seq<Timed>) {
    evs != [] &&
      var n := |evs| - 1;
      LetsSomebodyIn(env, s, evs[..n]) || LetsIn(env, Run(env, s, evs[..n]), evs[n].event, evs[n].now)
  }

  /** The calls of one step that is not about `a`, whatever fails in it. */
  lemma {:induction false} NextCalls(env: Env, s: State, ev: Event, now: real, d: Desk, a: Option<Address>)
      returns (calls: seq<Call>)
    requires Stands(env, s.wall, d) && NotListed(s.list, a) && Spares(ev, a)
    ensures Made(env, s, Next(env, s, ev, now), d, calls, a)
    ensures LetsIn(env, s, ev, now) ==> SomeCommits(env, d, calls)
  {
    hide Stands, Made, Added, RemovedOne, RemovedAll, CaughtUp, SomeCommits;
    match ev
    case Add(hole) => calls := AddedCalls(env, s, hole, now, d, a);
    case Remove(client) => calls := RemovedOneCalls(env, s, client, now, d, a);
    case RemoveEverything => calls := RemovedAllCalls(env, s, s.list, now, d, a);
    case Fire =>
      var s1 := s.(timer := None);
      calls := [];
      NoCalls(env, s, d, a, None);
      if s.list != [] {
        MadeMeans(env, s, s1, d, [], a);
        var more := RemovedOneCalls(env, s1, s.list[0].hole.client, now, DeskAfter(env, d, []), a);
        MadeMore(env, s, s1, RemovedOne(env, s1, s.list[0].hole.client, now).0, d, [], more, a);
        calls := [] + more;
      }
  }

  /** The calls of a whole run. */
  lemma {:induction false} RunCalls(env: Env, s: State, evs: seq<Timed>, d: Desk, a: Option<Address>)
      returns (calls: seq<Call>)
    requires Stands(env, s.wall, d) && NotListed(s.list, a)
    requires forall i :: 0 <= i < |evs| ==> Spares(evs[i].event, a)
    ensures Made(env, s, Run(env, s, evs), d, calls, a)
    ensures LetsSomebodyIn(env, s, evs) ==> SomeCommits(env, d, calls)
  {
    hide Stands, Made, Next, Spares, NotListed, DeskAfter, LetsIn, SomeCommits;
    if evs == [] {
      calls := [];
      NoCalls(env, s, d, a, None);
    } else {
      var n := |evs| - 1;
      var s1 := Run(env, s, evs[..n]);
      calls := RunCalls(env, s, evs[..n], d, a);
      MadeMeans(env, s, s1, d, calls, a);
      var more := NextCalls(env, s1, evs[n].event, evs[n].now, DeskAfter(env, d, calls), a);
      MadeMore(env, s, s1, Next(env, s1, evs[n].event, evs[n].now), d, calls, more, a);
      CallsConcat(env, d, calls, more);
      calls := calls + more;
    }
  }

  // ------------------------------------------------------------------------------ refused by the scheduler

  /** The items of a valid state. */
  function DeskOf(s: State): Desk { Desk(PairItems(s.rules), PairItems(s.rules), s.wall.ops) }

  lemma {:induction false} ValidStands(env: Env, s: State)
    requires Valid(env, s)
    ensures Stands(env, s.wall, DeskOf(s))
  {
    PartsOfValid(env, s);
    hide Consistent, Armed, Host, SetupOk, Installed, Holding;
    InstalledHolds(env.host, env.setup, s.rules);
  }

  /** Whatever is called and whatever fails, from a valid state on the table, edited and in force, is the host's with
      the firewall installed around some items. */
  lemma {:induction false} AlwaysInstalled(env: Env, s: State, evs: seq<Timed>) returns (d: Desk)
    requires Valid(env, s)
    ensures Stands(env, Run(env, s, evs).wall, d)
  {
    hide *;
    ValidStands(env, s);
    NobodyGiven(s, evs);
    var calls := RunCalls(env, s, evs, DeskOf(s), None);
    MadeMeans(env, s, Run(env, s, evs), DeskOf(s), calls, None);
    d := DeskAfter(env, DeskOf(s), calls);
  }

  lemma {:induction false} NobodyGiven(s: State, evs: seq<Timed>)
    ensures NotListed(s.list, None) && forall i :: 0 <= i < |evs| ==> Spares(evs[i].event, None)
  {
  }

  /** Letting client `c` in fails at operation `k`.  Whatever happens then to other addresses, `c` stays in the
      dictionary, for no list holds it and no timer waits for it; and it is let through, unasked and with no end,
      as soon as another call gets through, unless the first operation was the one that failed. */
  lemma {:induction false} RefusedAddStays(env: Env, s: State, hole: Hole, now: real, k: nat, evs: seq<Timed>)
    returns (d: Desk, calls: seq<Call>)
    requires Valid(env, s) && FailsAt(env, s.wall.ops, k)
    requires forall c :: c in s.entries ==> c.address != hole.client.address
    requires forall i :: 0 <= i < |evs| ==> Spares(evs[i].event, Some(hole.client.address))
    ensures Added(env, s, hole, now).1 == FirewallError
    ensures d == Desk(LeftIn(hole.client.address, k) + PairItems(s.rules), PairItems(s.rules), s.wall.ops + k + 1)
    ensures Stands(env, Added(env, s, hole, now).0.wall, d)
    ensures var s2 := Run(env, Added(env, s, hole, now).0, evs); var d2 := DeskAfter(env, d, calls);
      && hole.client in s2.entries && NotListed(s2.list, Some(hole.client.address)) && Stands(env, s2.wall, d2)
      && (Accept(hole.client.address) in d2.inForce <==> k >= 1 && SomeCommits(env, d, calls))
    ensures LetsSomebodyIn(env, Added(env, s, hole, now).0, evs) ==> SomeCommits(env, d, calls)
  {
    var a := hole.client.address;
    var s1 := Added(env, s, hole, now).0;
    hide *;
    d := RefusedAddDesk(env, s, hole, k);
    RefusedAddLeaves(env, s, hole, now);
    calls := RunCalls(env, s1, evs, d, Some(a));
    MadeAll(env, s1, Run(env, s1, evs), d, calls, a);
    RefusedAddComesInForce(env, DeskOf(s), a, k, calls);
  }

  /** The items after the refusal. */
  lemma {:induction false} RefusedAddDesk(env: Env, s: State, hole: Hole, k: nat) returns (d: Desk)
    requires Valid(env, s) && FailsAt(env, s.wall.ops, k)
    requires forall c :: c in s.entries ==> c.address != hole.client.address
    ensures d == LetIn(env, DeskOf(s), hole.client.address).0
    ensures d == Desk(LeftIn(hole.client.address, k) + PairItems(s.rules), PairItems(s.rules), s.wall.ops + k + 1)
    ensures Stands(env, ClientAdded(env, s.wall, hole.client.address).0, d)
    ensures !ClientAdded(env, s.wall, hole.client.address).1 && hole.client !in s.entries
    ensures NotListed(s.list, Some(hole.client.address)) && FailsAt(env, DeskOf(s).ops, k)
    ensures Own(DeskOf(s).edited, hole.client.address) == Own(DeskOf(s).inForce, hole.client.address) == []
  {
    var c, a := hole.client, hole.client.address;
    assert c !in s.entries;
    DeskOfIs(s);
    hide *;
    ValidStands(env, s);
    NobodyListed(env, s, a);
    AddingLeaves(env, DeskOf(s), a, k);
    AddingActs(env, s.wall, DeskOf(s), a);
    OwnsNothing(s.rules, a);
    d := LetIn(env, DeskOf(s), a).0;
  }

  lemma {:induction false} DeskOfIs(s: State)
    ensures DeskOf(s) == Desk(PairItems(s.rules), PairItems(s.rules), s.wall.ops)
  {
  }

  lemma {:induction false} MadeAll(env: Env, s: State, s1: State, d: Desk, calls: seq<Call>, a: Address)
    requires Made(env, s, s1, d, calls, Some(a))
    ensures Stands(env, s1.wall, DeskAfter(env, d, calls)) && Elsewhere(calls, a) && NotListed(s1.list, Some(a))
    ensures forall c: Client :: c.address == a ==> (c in s1.entries <==> c in s.entries)
  {
    hide Stands;
  }

  lemma {:induction false} NobodyListed(env: Env, s: State, a: Address)
    requires Valid(env, s) && forall c :: c in s.entries ==> c.address != a
    ensures NotListed(s.list, Some(a)) && a !in s.rules
  {
    PartsOfValid(env, s);
    hide Shows, Armed;
    RuleIffHole(s, a);
    forall i | 0 <= i < |s.list| ensures s.list[i].hole.client.address != a { EntryOf(s, i); }
  }

  lemma {:induction false} RefusedAddLeaves(env: Env, s: State, hole: Hole, now: real)
    requires hole.client !in s.entries && !ClientAdded(env, s.wall, hole.client.address).1
    ensures var (s1, o) := Added(env, s, hole, now);
      && o == FirewallError && hole.client in s1.entries && s1.list == s.list && s1.timer == s.timer
      && s1.wall == ClientAdded(env, s.wall, hole.client.address).0
      && s1.entries == s.entries[hole.client := HoleEntry(s.made, hole, now)]
  {
    hide ClientAdded;
  }

  /** The only hole of an address has the only pair of rules of that address. */
  lemma {:induction false} OnlyRule(rules: seq<Address>, list: seq<HoleEntry>, i: nat) returns (j: nat)
    requires RulesMatch(rules, list) && i < |list|
    requires forall n :: 0 <= n < |list| && n != i ==> list[n].hole.client.address != list[i].hole.client.address
    ensures OnlyAt(rules, j) && rules[j] == list[i].hole.client.address && FirstRule(rules, rules[j]) == Some(j)
  {
    var a := list[i].hole.client.address;
    HasRule(rules, list, i);
    j := FirstRule(rules, a).value;
    RulesWithout(rules, list, i, j);
    var rules', addresses := RemoveAt(rules, j), Map(RemoveAt(list, i), AddressOf());
    assert a !in addresses;
    assert a !in multiset(addresses);
    assert a !in rules';
    forall n | 0 <= n < |rules| && n != j ensures rules[n] != a {
      assert rules'[if n < j then n else n - 1] == rules[n];
    }
  }

  /** Shutting the client of hole `i` out fails at operation `k`.  Its hole is gone from the dictionary and the list.
      Whatever happens then to other addresses, it goes on being let through until another call gets through, and
      from then on unless the last operation was the one that failed. */
  lemma {:induction false} RefusedRemovalStays(env: Env, s: State, i: nat, now: real, k: nat, evs: seq<Timed>)
    returns (d: Desk, calls: seq<Call>)
    requires Valid(env, s) && i < |s.list| && FirstOfItsTime(s.list, i) && FailsAt(env, s.wall.ops, k)
    requires forall j :: 0 <= j < |s.list| && j != i ==> s.list[j].hole.client.address != s.list[i].hole.client.address
    requires forall j :: 0 <= j < |evs| ==> Spares(evs[j].event, Some(s.list[i].hole.client.address))
    ensures var c := s.list[i].hole.client; var (s1, o) := RemovedOne(env, s, c, now);
      && o == FirewallError && Stands(env, s1.wall, d)
      && d == Desk(LeftOut(PairItems(s.rules), c.address, k), PairItems(s.rules), s.wall.ops + k + 1)
      && var s2 := Run(env, s1, evs); var d2 := DeskAfter(env, d, calls);
      && c !in s2.entries && NotListed(s2.list, Some(c.address)) && Stands(env, s2.wall, d2)
      && (Accept(c.address) in d2.inForce <==> k <= 1 || !SomeCommits(env, d, calls))
      && (LetsSomebodyIn(env, s1, evs) ==> SomeCommits(env, d, calls))
  {
    var c, a := s.list[i].hole.client, s.list[i].hole.client.address;
    hide *;
    d := RefusedRemovalDesk(env, s, i, k);
    var s1 := RefusedRemovalLeaves(env, s, i, now, k);
    calls := RunCalls(env, s1, evs, d, Some(a));
    MadeAll(env, s1, Run(env, s1, evs), d, calls, a);
    RefusedRemovalComesInForce(env, DeskOf(s), a, k, calls);
  }

  lemma {:induction false} RefusedRemovalDesk(env: Env, s: State, i: nat, k: nat) returns (d: Desk)
    requires Valid(env, s) && i < |s.list| && FailsAt(env, s.wall.ops, k)
    requires forall j :: 0 <= j < |s.list| && j != i ==> s.list[j].hole.client.address != s.list[i].hole.client.address
    ensures var a := s.list[i].hole.client.address;
      && d == ShutOut(env, DeskOf(s), a).0 && FailsAt(env, DeskOf(s).ops, k)
      && d == Desk(LeftOut(PairItems(s.rules), a, k), PairItems(s.rules), s.wall.ops + k + 1)
      && Stands(env, ClientRemoved(env, s.wall, a).0, d) && !ClientRemoved(env, s.wall, a).1
      && Own(DeskOf(s).edited, a) == Own(DeskOf(s).inForce, a) == [Log(a), Accept(a)]
  {
    var a := s.list[i].hole.client.address;
    ConsistentMatches(env, s);
    DeskOfIs(s);
    hide *;
    var j := OnlyRule(s.rules, s.list, i);
    OwnsOnePair(s.rules, j);
    OwnHolds(PairItems(s.rules), Log(a));
    OwnHolds(PairItems(s.rules), Accept(a));
    ValidStands(env, s);
    RemovingLeaves(env, DeskOf(s), a, k);
    RemovingActs(env, s.wall, DeskOf(s), a);
    d := ShutOut(env, DeskOf(s), a).0;
  }

  lemma {:induction false} ConsistentMatches(env: Env, s: State)
    requires Valid(env, s)
    ensures RulesMatch(s.rules, s.list)
  {
    PartsOfValid(env, s);
    hide Shows, Armed, RulesMatch;
  }

  lemma {:induction false} RefusedRemovalLeaves(env: Env, s: State, i: nat, now: real, k: nat) returns (s1: State)
    requires Valid(env, s) && i < |s.list| && FirstOfItsTime(s.list, i)
    requires !ClientRemoved(env, s.wall, s.list[i].hole.client.address).1
    requires forall j :: 0 <= j < |s.list| && j != i ==> s.list[j].hole.client.address != s.list[i].hole.client.address
    ensures var c := s.list[i].hole.client;
      && RemovedOne(env, s, c, now) == (s1, FirewallError) && s1.wall == ClientRemoved(env, s.wall, c.address).0
      && c !in s1.entries && NotListed(s1.list, Some(c.address))
  {
    PartsOfValid(env, s);
    hide Shows, ClientRemoved, Armed;
    EntryOf(s, i);
    hide Consistent, FirstEqual;
    s1 := Removed(env, s, s.list[i].hole.client).0;
  }
}
