/** What the calls of the hole table do in any state, whether or not dictionary, list, timer and table agree.  A
    lookup that completes before the firewall is initialized leads to such states. */
module AnyState {
  import opened Seqs
  import opened Mangle
  import opened Wall
  import opened Schedule
  import opened ScheduleRuns
  import opened Firewalls

  /** Some listed hole is due when the client's hole is. */
  predicate DueAlike(s: State, client: Client)
    requires client in s.entries
  {
    var e := s.entries[client];
    exists i :: 0 <= i < |s.list| &&
      s.list[i].timestamp + s.list[i].hole.expiration == e.timestamp + e.hole.expiration
  }

  /** How taking one client out ends, in any state: that there is no hole is said exactly of a client that is not in
      the dictionary; IndexError is raised exactly on an empty list; ValueError exactly if no listed hole is due when
      the client's is; and else it is up to the firewall.  However it ends, the client is not in the dictionary
      afterwards, and all others are. */
  lemma {:induction false} TakingOutEnds(env: Env, s: State, client: Client)
    ensures var (s1, o) := Removed(env, s, client);
      && (o == HoleError <==> client !in s.entries)
      && (o == IndexError <==> client in s.entries && s.list == [])
      && (o == ValueError <==> client in s.entries && s.list != [] && !DueAlike(s, client))
      && (o == FirewallError <==>
            client in s.entries && DueAlike(s, client) && !ClientRemoved(env, s.wall, client.address).1)
      && (o == HoleError ==> s1 == s)
      && client !in s1.entries && (forall c :: c in s.entries && c != client ==> c in s1.entries)
      && (forall c :: c in s1.entries ==> c in s.entries && s1.entries[c] == s.entries[c])
  {
    hide ClientRemoved;
  }

  /** What else it does: the first listed hole that is due when the client's is leaves the list, and the firewall is
      called just for such a one; the timer is left alone. */
  lemma {:induction false} TakingOutLeaves(env: Env, s: State, client: Client)
    ensures var (s1, o) := Removed(env, s, client);
      && s1.timer == s.timer && s1.made == s.made
      && (o == HoleError || o == IndexError || o == ValueError ==> s1.list == s.list && s1.wall == s.wall)
      && (o == Done || o == FirewallError ==>
            && client in s.entries && s1.wall == ClientRemoved(env, s.wall, client.address).0
            && exists p :: 0 <= p < |s.list| && s1.list == RemoveAt(s.list, p)
                 && Deadline(s.list[p]) == Deadline(s.entries[client])
                 && forall j :: 0 <= j < p ==> Deadline(s.list[j]) != Deadline(s.entries[client]))
  {
    hide ClientRemoved;
    if client in s.entries && s.list != [] && FirstEqual(s.list, Deadline(s.entries[client])).Some? {
      var p := FirstEqual(s.list, Deadline(s.entries[client])).value;
      assert Removed(env, s, client).0.list == RemoveAt(s.list, p);
    }
  }

  /** Some hole in the list is for `c`, and due. */
  predicate Overdue(list: seq<HoleEntry>, c: Client, now: real) {
    exists i :: 0 <= i < |list| && list[i].hole.client == c && Deadline(list[i]) <= now
  }

  lemma {:induction false} OverdueBefore(list: seq<HoleEntry>, p: nat, c: Client, now: real)
    requires p < |list| && Overdue(RemoveAt(list, p), c, now)
    ensures Overdue(list, c, now)
  {
    var i :| 0 <= i < |list| - 1 && RemoveAt(list, p)[i].hole.client == c && Deadline(RemoveAt(list, p)[i]) <= now;
    assert RemoveAt(list, p)[i] == list[if i < p then i else i + 1];
  }

  /** Catching up takes nobody out whose hole is not listed as due, and puts nobody in. */
  lemma {:induction false} CatchingUpTakes(env: Env, s: State, now: real)
    ensures var s1 := CaughtUp(env, s, now).0;
      && (forall c :: c in s.entries && c !in s1.entries ==> Overdue(s.list, c, now))
      && (forall c :: c in s1.entries ==> c in s.entries && s1.entries[c] == s.entries[c])
    decreases |s.list|
  {
    if s.list != [] && TimeLeft(s.list[0], now) <= 0.0 {
      var client := s.list[0].hole.client;
      var (s1, o) := Removed(env, s, client);
      TakingOutEnds(env, s, client);
      TakingOutLeaves(env, s, client);
      assert Overdue(s.list, client, now);
      hide Removed, Overdue;
      if o == Done {
        var p :| 0 <= p < |s.list| && s1.list == RemoveAt(s.list, p);
        CatchingUpTakes(env, s1, now);
        forall c | Overdue(s1.list, c, now) ensures Overdue(s.list, c, now) { OverdueBefore(s.list, p, c, now); }
      }
    }
  }

  /** When catching up ends well, nothing that is first in the list is overdue, and the timer is armed for just the
      deadline of that one; when it fails, or nothing is left, the timer is as it was. */
  lemma {:induction false} CatchingUpArms(env: Env, s: State, now: real)
    ensures var (s1, o) := CaughtUp(env, s, now);
      if o == Done && s1.list != []
      then Deadline(s1.list[0]) > now && s1.timer == Some(s1.list[0].timestamp + s1.list[0].hole.expiration)
      else s1.timer == s.timer
    decreases |s.list|
  {
    if s.list != [] && TimeLeft(s.list[0], now) <= 0.0 {
      var (s1, o) := Removed(env, s, s.list[0].hole.client);
      TakingOutLeaves(env, s, s.list[0].hole.client);
      hide Removed;
      if o == Done {
        CatchingUpArms(env, s1, now);
      }
    }
  }

  /** Removing a client, in any state: it is not in the dictionary afterwards, however the call ends.  Nobody
      else leaves the dictionary, but for holes listed as due when the client's was the first one in the list.
      */
  lemma {:induction false} RemovalTakesOut(env: Env, s: State, client: Client, now: real)
    ensures var s1 := RemovedOne(env, s, client, now).0;
      && client !in s1.entries
      && (forall c :: c in s.entries && c != client && c !in s1.entries ==>
            IsHead(s, client) && Overdue(s.list, c, now))
      && (forall c :: c in s1.entries ==> c in s.entries && s1.entries[c] == s.entries[c])
      && (client !in s.entries ==> RemovedOne(env, s, client, now) == (s, HoleError))
  {
    TakingOutEnds(env, s, client);
    TakingOutLeaves(env, s, client);
    var (s1, o) := Removed(env, s, client);
    hide Removed, CaughtUp, Overdue, IsHead, DueAlike;
    if client !in s.entries { NotThere(env, s, client, now); }
    if o == Done && IsHead(s, client) {
      CatchingUpTakes(env, s1.(timer := None), now);
      var p :| 0 <= p < |s.list| && s1.list == RemoveAt(s.list, p);
      forall c | Overdue(s1.list, c, now) ensures Overdue(s.list, c, now) { OverdueBefore(s.list, p, c, now); }
    }
  }

  /** When the timer fires, in any state: without a listed hole that is an error, and only the timer is given
      up; else the first listed client is not in the dictionary afterwards. */
  lemma {:induction false} FiringTakesOut(env: Env, s: State, now: real)
    ensures var (s1, o) := Fired(env, s, now);
      && (o == IndexError && s.list == [] ==> s1 == s.(timer := None))
      && (s.list == [] ==> o == IndexError)
      && (s.list != [] ==> s.list[0].hole.client !in s1.entries)
  {
    if s.list != [] {
      RemovalTakesOut(env, s.(timer := None), s.list[0].hole.client, now);
    }
    hide RemovedOne;
  }

  /** What the caller of a removal is told, in any state: no only of a client that is not in the dictionary, or when
      catching up comes upon one that is not; yes only if all went well; and any other error is passed on. */
  lemma {:induction false} RemovalAnswers(env: Env, s: State, client: Client, now: real)
    ensures var (s1, removed) := HoleRemoved(env, s, client, now);
      && (client !in s.entries ==> removed == Some(false) && s1 == s)
      && (client in s.entries && (s.list == [] || !DueAlike(s, client)) ==> removed == None)
      && (client in s.entries && !ClientRemoved(env, s.wall, client.address).1 ==> removed == None)
      && (client in s.entries && DueAlike(s, client) && !IsHead(s, client) ==>
            removed == if ClientRemoved(env, s.wall, client.address).1 then Some(true) else None)
      && client !in s1.entries
  {
    TakingOutEnds(env, s, client);
    RemovalTakesOut(env, s, client, now);
    hide Removed, CaughtUp, ClientRemoved, IsHead;
  }

  /** Cleaning, in any state: when closing the holes fails, the firewall is not taken down, and everything stays as the
      failing removal has left it. */
  lemma {:induction false} CleaningStops(env: Env, s: State, now: real)
    requires RemovedAll(env, s, s.list, now).1 != Done
    ensures CleanedUp(env, s, now) == RemovedAll(env, s, s.list, now).0
  {
    hide RemovedAll, TakenDown;
  }

  /** The clients that have been answered. */
  function Answered(w: World): seq<Client> { Map(w.answers, (a: (Client, bool)) => a.0) }

  /** Nobody is forgotten and nobody answered twice: whoever asks is answered or waits for a lookup, and whoever
      waits is answered when it completes or fails. */
  lemma {:induction false} EveryoneIsAnswered(env: Env, w: World, step: Step, now: real)
    requires CanHappen(w, step, now)
    ensures var w1 := Happens(env, w, step, now);
      var asked: multiset<Client> := if step.Ask? then multiset{step.client} else multiset{};
      multiset(w1.pending) + multiset(Answered(w1)) == multiset(w.pending) + multiset(Answered(w)) + asked
  {
    hide Completed, RemovedOne, CleanedUp, SetUp, Fired;
    var w1 := Happens(env, w, step, now);
    if w1.answers != w.answers {
      assert Answered(w1) == Answered(w) + [w1.answers[|w.answers|].0];
    }
    if step.Answer? || step.Fail? {
      TakenFrom(w.pending, step.i);
    }
  }

  lemma {:induction false} TakenFrom<T>(s: seq<T>, i: nat)
    requires i < |s|
    ensures multiset(RemoveAt(s, i)) + multiset{s[i]} == multiset(s)
  {
    assert s == s[..i] + [s[i]] + s[i + 1..];
  }

  /** What they are told: a client that asks is told yes at once if and only if it is in the dictionary, and is
      never told no at once; a lookup that fails tells no; and one that completes tells yes only if it opened
      the hole of a client that was not in the dictionary and whose time is not up. */
  lemma {:induction false} WhatIsAnswered(env: Env, w: World, step: Step, now: real)
    requires CanHappen(w, step, now)
    ensures var w1 := Happens(env, w, step, now);
      match step
      case Ask(client) =>
        && w1.holes == w.holes
        && w1.answers == if client in w.holes.entries then w.answers + [(client, true)] else w.answers
      case Fail(i) => w1.holes == w.holes && w1.answers == w.answers + [(w.pending[i], false)]
      case Answer(i, status) =>
        && |w1.answers| == |w.answers| + 1 && w1.answers[..|w.answers|] == w.answers
        && w1.answers[|w.answers|].0 == w.pending[i]
        && (w1.answers[|w.answers|].1 ==>
              && status.client !in w.holes.entries && status.expiration > 0.0
              && now < status.loginTime + status.expiration && w1.holes != w.holes)
      case _ => w1.answers == w.answers
  {
    hide Added, RemovedOne, CleanedUp, SetUp, Fired;
    if step.Answer? && step.status.client in w.holes.entries {
      AlreadyThere(env, w.holes, HoleFor(step.status, now), now);
    }
    if step.Answer? && step.status.client !in w.holes.entries {
      MadeOneMore(env, w.holes, HoleFor(step.status, now), now);
    }
  }

  /** An attempt to open a hole makes an entry, which is counted. */
  lemma {:induction false} MadeOneMore(env: Env, s: State, hole: Hole, now: real)
    requires hole.client !in s.entries
    ensures Added(env, s, hole, now).0.made == s.made + 1
  {
    if ClientAdded(env, s.wall, hole.client.address).1 {
      var s2 := PutIn(env, s, hole, now);
      AddedIs(env, s, hole, now);
      MadeStays(env, s2.(timer := None), now);
    }
    hide ClientAdded;
  }

  lemma {:induction false} MadeStays(env: Env, s: State, now: real)
    ensures CaughtUp(env, s, now).0.made == s.made
    decreases |s.list|
  {
    if s.list != [] && TimeLeft(s.list[0], now) <= 0.0 {
      var (s1, o) := Removed(env, s, s.list[0].hole.client);
      TakingOutLeaves(env, s, s.list[0].hole.client);
      hide Removed;
      if o == Done {
        MadeStays(env, s1, now);
      }
    }
  }

  /** Whatever the state, a client that has been removed is looked up when it asks again; a client that was left in the
      dictionary by a refusal is no exception. */
  lemma {:induction false} RemovedIsLookedUp(env: Env, w: World, client: Client, now: real, then': real)
    ensures var w1 := Happens(env, w, Step.Leave(client), now);
      && CanHappen(w1, Ask(client), then')
      && Happens(env, w1, Ask(client), then') == w1.(pending := w1.pending + [client])
  {
    RemovalTakesOut(env, w.holes, client, now);
    hide RemovedOne;
  }

  /** A client is in the dictionary after any attempt to open a hole for it, unless catching up has closed the new hole
      at once; and only a client that was there already is told so. */
  lemma {:induction false} AddingPutsIn(env: Env, s: State, hole: Hole, now: real)
    ensures var (s1, o) := Added(env, s, hole, now);
      && (hole.client in s.entries ==> (s1, o) == (s, HoleError))
      && (hole.client !in s.entries && !ClientAdded(env, s.wall, hole.client.address).1 ==>
            o == FirewallError && s1.list == s.list && s1.timer == s.timer
            && s1.entries == s.entries[hole.client := HoleEntry(s.made, hole, now)])
      && (hole.client !in s.entries && hole.expiration > 0.0 && !Overdue(s.list, hole.client, now) ==>
            hole.client in s1.entries && s1.entries[hole.client] == HoleEntry(s.made, hole, now))
      && (forall c :: c in s.entries && c !in s1.entries ==> Overdue(s.list, c, now) || c == hole.client)
  {
    if hole.client in s.entries {
      AlreadyThere(env, s, hole, now);
    } else if ClientAdded(env, s.wall, hole.client.address).1 {
      var s2 := PutIn(env, s, hole, now);
      AddedIs(env, s, hole, now);
      CatchingUpTakes(env, s2.(timer := None), now);
      var e := HoleEntry(s.made, hole, now);
      forall c | Overdue(s2.list, c, now)
        ensures Overdue(s.list, c, now) || (c == hole.client && hole.expiration <= 0.0)
      {
        OverduePutIn(s.list, Rank(s.list, Deadline(e)), e, c, now);
      }
      hide Added, CaughtUp, ClientAdded, Overdue, Rank;
    } else {
      hide ClientAdded;
    }
  }

  lemma {:induction false} OverduePutIn(list: seq<HoleEntry>, p: nat, e: HoleEntry, c: Client, now: real)
    requires p <= |list| && Overdue(InsertAt(list, p, e), c, now)
    ensures Overdue(list, c, now) || (c == e.hole.client && Deadline(e) <= now)
  {
    var list' := InsertAt(list, p, e);
    var i :| 0 <= i < |list'| && list'[i].hole.client == c && Deadline(list'[i]) <= now;
    if i != p { assert list'[i] == list[if i < p then i else i - 1]; }
  }
}
