/** The object that keeps the open holes, method by method as specified in `Schedule`. */
module HoleTables {
  import opened Seqs
  import opened Mangle
  import opened Wall
  import opened Schedule

  class Holes {
    var holeEntries: map<Client, HoleEntry>
    var byExpiration: seq<HoleEntry>
    var expiredCall: Option<real>
    /** The firewall's table. */
    var wall: Table
    var made: nat
    /** The record of `Schedule.State`. */
    ghost var rules: seq<Address>

    ghost function Snapshot(): State
      reads this
    {
      State(holeEntries, byExpiration, expiredCall, wall, rules, made)
    }

    constructor (wall: Table)
      ensures Snapshot() == Initially(wall)
    {
      holeEntries, byExpiration, expiredCall, made := map[], [], None, 0;
      this.wall := wall;
      rules := [];
    }

    /** Opens a hole. */
    method Add(hole: Hole, now: real, env: Env) returns (o: Outcome)
      requires SortedList(byExpiration)
      modifies this
      ensures SortedList(byExpiration)
      ensures (Snapshot(), o) == Added(env, old(Snapshot()), hole, now)
    {
      hide CaughtUp, SortedList, ClientAdded, Rank;
      if hole.client in holeEntries {
        return HoleError;
      }
      var entry := HoleEntry(made, hole, now);
      made := made + 1;
      holeEntries := holeEntries[hole.client := entry];
      var earliest := if byExpiration == [] then None else Some(byExpiration[0]);
      var ok;
      wall, ok := AddFirewall(hole.client.address, env);
      if !ok {
        return FirewallError;
      }
      rules := [hole.client.address] + rules;
      PutInSorted(byExpiration, entry);
      var at := BisectRight(byExpiration, Deadline(entry));
      byExpiration := InsertAt(byExpiration, at, entry);
      var newEarliest := byExpiration[0];
      o := Done;
      if earliest.None? || Deadline(newEarliest) != Deadline(earliest.value) {
        o := RescheduleNextExpiration(now, env);
      }
    }

    /** Cancels the timer, closes the holes whose time is up, and arms the timer for the next one. */
    method RescheduleNextExpiration(now: real, env: Env) returns (o: Outcome)
      requires SortedList(byExpiration)
      modifies this
      ensures SortedList(byExpiration)
      ensures (Snapshot(), o) == Rescheduled(env, old(Snapshot()), now)
    {
      hide SortedList, CaughtUp, Removed, Rank;
      expiredCall := None;
      ghost var s := Snapshot();
      while byExpiration != []
        invariant SortedList(byExpiration)
        invariant CaughtUp(env, s, now) == CaughtUp(env, Snapshot(), now)
        decreases |byExpiration|
      {
        ghost var before := Snapshot();
        CaughtUpStep(env, before, now);
        var entry := byExpiration[0];
        var timeout := TimeLeft(entry, now);
        if timeout <= 0.0 {
          var needResched;
          o, needResched := RemoveEntry(entry.hole.client, env);
          if o != Done {
            return;
          }
          Shorter(env, before, entry.hole.client);
        } else {
          expiredCall := Some(now + timeout);
          return Done;
        }
      }
      CaughtUpStep(env, Snapshot(), now);
      return Done;
    }

    /** Closes one hole and tells whether it was the earliest. */
    method RemoveEntry(client: Client, env: Env) returns (o: Outcome, needResched: bool)
      requires SortedList(byExpiration)
      modifies this
      ensures SortedList(byExpiration)
      ensures (Snapshot(), o) == Removed(env, old(Snapshot()), client)
      ensures o == Done ==> needResched == IsHead(old(Snapshot()), client)
    {
      needResched := false;
      if client !in holeEntries {
        return HoleError, needResched;
      }
      var entry := holeEntries[client];
      holeEntries := holeEntries - {client};
      if byExpiration == [] {
        return IndexError, needResched;
      }
      needResched := byExpiration[0] == entry;
      var at := FirstEqual(byExpiration, Deadline(entry));
      if at.None? {
        return ValueError, needResched;
      }
      SortedRemove(byExpiration, at.value);
      byExpiration := RemoveAt(byExpiration, at.value);
      var ok;
      wall, ok := RemoveFirewall(client.address, env);
      if !ok {
        return FirewallError, needResched;
      }
      rules := Fewer(rules, client.address);
      return Done, needResched;
    }

    method Remove(client: Client, now: real, env: Env) returns (o: Outcome)
      requires SortedList(byExpiration)
      modifies this
      ensures SortedList(byExpiration)
      ensures (Snapshot(), o) == RemovedOne(env, old(Snapshot()), client, now)
    {
      hide Removed, CaughtUp, SortedList, IsHead;
      var needResched;
      o, needResched := RemoveEntry(client, env);
      if o == Done && needResched {
        o := RescheduleNextExpiration(now, env);
      }
    }

    /** Closes all holes, from the latest deadline to the earliest. */
    method RemoveAll(now: real, env: Env) returns (o: Outcome)
      requires SortedList(byExpiration)
      modifies this
      ensures SortedList(byExpiration)
      ensures (Snapshot(), o) == RemovedAll(env, old(Snapshot()), old(byExpiration), now)
    {
      hide RemovedOne, SortedList;
      ghost var s := Snapshot();
      var all := byExpiration;
      var i := |all|;
      assert all[..i] == all;
      while i > 0
        invariant i <= |all| && SortedList(byExpiration)
        invariant RemovedAll(env, s, all, now) == RemovedAll(env, Snapshot(), all[..i], now)
      {
        assert all[..i][..i - 1] == all[..i - 1];
        o := Remove(all[i - 1].hole.client, now, env);
        if o != Done {
          return;
        }
        i := i - 1;
      }
      return Done;
    }

    /** The timer fires. */
    method HoleExpired(now: real, env: Env) returns (o: Outcome)
      requires SortedList(byExpiration)
      modifies this
      ensures SortedList(byExpiration)
      ensures (Snapshot(), o) == Fired(env, old(Snapshot()), now)
    {
      hide RemovedOne, SortedList;
      expiredCall := None;
      if byExpiration == [] {
        return IndexError;
      }
      o := Remove(byExpiration[0].hole.client, now, env);
    }

    /** The calls to the firewall. */
    method AddFirewall(a: Address, env: Env) returns (wall': Table, ok: bool)
      ensures (wall', ok) == ClientAdded(env, wall, a)
    {
      var r := ClientAdded(env, wall, a);
      return r.0, r.1;
    }

    method RemoveFirewall(a: Address, env: Env) returns (wall': Table, ok: bool)
      ensures (wall', ok) == ClientRemoved(env, wall, a)
    {
      var r := ClientRemoved(env, wall, a);
      return r.0, r.1;
    }

    method Find(client: Client) returns (r: Option<Hole>)
      ensures r == if client in holeEntries then Some(holeEntries[client].hole) else None
    {
      return if client in holeEntries then Some(holeEntries[client].hole) else None;
    }

    /** Time until the earliest hole is due. */
    method GetNextExpiration(now: real) returns (r: Option<real>)
      requires SortedList(byExpiration)
      ensures r.None? <==> byExpiration == []
      ensures r.Some? ==> (exists i :: 0 <= i < |byExpiration| && TimeLeft(byExpiration[i], now) == r.value)
      ensures r.Some? ==> forall i :: 0 <= i < |byExpiration| ==> r.value <= TimeLeft(byExpiration[i], now)
    {
      return if byExpiration == [] then None else Some(TimeLeft(byExpiration[0], now));
    }
  }

  /** A successful removal shortens the list. */
  lemma {:induction false} Shorter(env: Env, s: State, client: Client)
    requires Removed(env, s, client).1 == Done
    ensures |Removed(env, s, client).0.list| < |s.list|
  {
  }

  lemma {:induction false} SortedRemove(list: seq<HoleEntry>, i: nat)
    requires SortedList(list) && i < |list|
    ensures SortedList(RemoveAt(list, i))
  {
    assert forall k :: 0 <= k < |list| - 1 ==> RemoveAt(list, i)[k] == list[if k < i then k else k + 1];
  }

  /** The place behind all entries whose deadline is at most `d`. */
  method BisectRight(list: seq<HoleEntry>, d: real) returns (at: nat)
    requires SortedList(list)
    ensures at == Rank(list, d)
  {
    var lo, hi := 0, |list|;
    while lo < hi
      invariant lo <= hi <= |list|
      invariant forall i :: 0 <= i < lo ==> Deadline(list[i]) <= d
      invariant forall i :: hi <= i < |list| ==> Deadline(list[i]) > d
    {
      var mid := (lo + hi) / 2;
      if d < Deadline(list[mid]) {
        hi := mid;
      } else {
        lo := mid + 1;
      }
    }
    RankIs(list, d, lo);
    return lo;
  }

  /** The rank is the one place that parts the entries due no later from the others. */
  lemma {:induction false} RankIs(list: seq<HoleEntry>, d: real, at: nat)
    requires at <= |list| && (forall i :: 0 <= i < at ==> Deadline(list[i]) <= d)
    requires forall i :: at <= i < |list| ==> Deadline(list[i]) > d
    ensures at == Rank(list, d)
  {
    if at > 0 {
      assert Deadline(list[0]) <= d;
      RankIs(list[1..], d, at - 1);
    }
  }
}
