/** The library's own checks on a table's entries, and exactly when a compiled table passes them. */
module SelfCheck {
  import opened Names
  import opened Seqs
  import opened Rulesets
  import opened Cache
  import opened HandleFacts
  import opened Layout
  import opened Compiler
  import opened Walk
  import opened RoundTrip
  import opened Snapshot

  predicate IsError(e: Entry) { e.target.name == ERROR_TARGET }

  /** An unconditional return. */
  predicate IsReturn(e: Entry) {
    e.target.name == STANDARD_TARGET && e.target.verdict == RETURN && e.ip == BLANK_IP && e.matches == []
  }

  /** Entry number `n`. */
  predicate IsEntry(b: Blob, n: nat, off: nat) { Walked(b, n) == Some(off) && off in b.entries }

  /** The number of the entry at `off`, looked for from entry `n` on. */
  function IndexFrom(b: Blob, off: nat, n: nat): (m: Option<nat>)
    ensures m.Some? ==> n <= m.value < |b.entries| && IsEntry(b, m.value, off)
    ensures m.None? ==> forall i :: n <= i < |b.entries| ==> !IsEntry(b, i, off)
    decreases |b.entries| - n
  {
    if n >= |b.entries| then None
    else if IsEntry(b, n, off) then Some(n)
    else IndexFrom(b, off, n + 1)
  }

  /** A jump leads to an entry that is neither an error node nor the jump itself; and to the next entry, or
      behind an error node. */
  predicate LeadsRight(b: Blob, off: nat, e: Entry) {
    var v := e.target.verdict;
    v >= 0 ==>
      var m := IndexFrom(b, v, 0);
      && m.Some? && !IsError(b.entries[v]) && v != off
      && (v == off + EntrySize(e)
          || (m.value > 0 && Walked(b, m.value - 1).Some? && Walked(b, m.value - 1).value in b.entries
              && IsError(b.entries[Walked(b, m.value - 1).value])))
  }

  /** The checks on one entry: `user` is where the user chains begin, `wasReturn` tells whether the entry before
      was an unconditional return. */
  predicate EntryPasses(b: Blob, rs: Ruleset, user: nat, off: nat, e: Entry, wasReturn: bool) {
    && Lookup(rs, e.target.name).None?
    && (e.target.name == STANDARD_TARGET ==>
         IsStandardSized(e.target) && e.target.verdict < b.size && LeadsRight(b, off, e))
    && (IsError(e) ==> TargetSize(e.target) == ERROR_SIZE && (off > user ==> wasReturn))
    && (off == user ==> IsError(e))
  }

  /** Entry number `n` passes where it stands. */
  predicate Passes(b: Blob, rs: Ruleset, user: nat, n: nat) {
    match Walked(b, n)
    case None => false
    case Some(off) =>
      off in b.entries && EntryPasses(b, rs, user, off, b.entries[off], n > 0 && ReturnAt(b, n - 1))
  }

  predicate ReturnAt(b: Blob, n: nat) {
    match Walked(b, n)
    case None => false
    case Some(off) => off in b.entries && IsReturn(b.entries[off])
  }

  /** Goes through all entries, and counts them and their bytes; stops at the first that fails. */
  method CheckEntries(b: Blob, rs: Ruleset, user: nat) returns (ok: bool, i: nat, off: nat)
    requires Walked(b, |b.entries|) == Some(b.size)
    ensures ok <==> forall n :: 0 <= n < |b.entries| ==> Passes(b, rs, user, n)
    ensures ok ==> i == |b.entries| && off == b.size
  {
    hide EntryPasses, IsReturn, Walked, EntrySize;
    i, off := 0, 0;
    var wasReturn := false;
    WalkedStart(b);
    while off < b.size
      invariant i <= |b.entries| && Walked(b, i) == Some(off)
      invariant wasReturn <==> i > 0 && ReturnAt(b, i - 1)
      invariant forall n :: 0 <= n < i ==> Passes(b, rs, user, n)
      decreases |b.entries| - i
    {
      WalkedNext(b, i, |b.entries|);
      var e := b.entries[off];
      if !EntryPasses(b, rs, user, off, e, wasReturn) {
        assert !Passes(b, rs, user, i);
        return false, i, off;
      }
      wasReturn := IsReturn(e);
      off := off + EntrySize(e);
      i := i + 1;
    }
    if i < |b.entries| {
      WalkedGrows(b, i, |b.entries|);
    }
    return true, i, off;
  }

  lemma {:induction false} WalkedStart(b: Blob)
    ensures Walked(b, 0) == Some(0)
  {
  }

  // ------------------------------------------------------------------------------ what the checks ask

  /** Entry number `m` is there, and is an error node. */
  ghost predicate ErrorNo(b: Blob, m: int) {
    && m >= 0 && Walked(b, m).Some? && Walked(b, m).value in b.entries
    && b.entries[Walked(b, m).value].target.name == "ERROR"
  }

  /** Entry number `m` is there, and returns unconditionally. */
  ghost predicate ReturnNo(b: Blob, m: int) {
    && m >= 0 && Walked(b, m).Some? && Walked(b, m).value in b.entries
    && var e := b.entries[Walked(b, m).value];
       e.target.name == "" && e.target.verdict == -5 && e.matches == []
       && e.ip == Ip(0, 0, 0, 0, NO_INTERFACE, NO_INTERFACE, NO_INTERFACE, NO_INTERFACE, 0, 0, 0)
  }

  /** There is an entry at `v`, other than the one at `off` and no error node; it is the next entry, `next`, or has an
      error node in front of it. */
  ghost predicate MayJump(b: Blob, off: nat, next: nat, v: int) {
    exists m: nat :: m < |b.entries| && v >= 0 && IsEntry(b, m, v) && v != off
                     && b.entries[v].target.name != "ERROR" && (v == next || ErrorNo(b, m - 1))
  }

  /** Exactly what the library asks of entry number `n`: nothing is named like a chain; a standard target has
      the size of a verdict, which lies within the table and, when it is a jump, leads where it may; an error
      node has the size of one, and behind the beginning of the user chains it follows an unconditional return;
      and the user chains begin with an error node. */
  lemma {:induction false} PassesMeans(b: Blob, rs: Ruleset, user: nat, n: nat, off: nat)
    requires Walked(b, |b.entries|) == Some(b.size) && IsEntry(b, n, off)
    ensures var e := b.entries[off];
      Passes(b, rs, user, n) <==>
        && (forall k :: 0 <= k < |rs| ==> rs[k].name != e.target.name)
        && (e.target.name == "" ==>
             && 32 + |e.target.data| == 40 && e.target.verdict < b.size
             && (e.target.verdict >= 0 ==> MayJump(b, off, off + EntrySize(e), e.target.verdict)))
        && (e.target.name == "ERROR" ==>
             32 + |e.target.data| == 64 && (off > user ==> ReturnNo(b, n - 1)))
        && (off == user ==> e.target.name == "ERROR")
  {
    var e := b.entries[off];
    LeadsMeans(b, off, e);
    ReturnMeans(b, n);
    hide Walked, LeadsRight, Lookup, MayJump, ReturnNo, ReturnAt, EntrySize;
  }

  lemma {:induction false} ReturnMeans(b: Blob, n: nat)
    ensures (n > 0 && ReturnAt(b, n - 1)) <==> ReturnNo(b, n - 1)
  {
    hide Walked;
  }

  lemma {:induction false} LeadsMeans(b: Blob, off: nat, e: Entry)
    requires Walked(b, |b.entries|) == Some(b.size)
    ensures LeadsRight(b, off, e) <==>
      (e.target.verdict >= 0 ==> MayJump(b, off, off + EntrySize(e), e.target.verdict))
  {
    var v := e.target.verdict;
    hide EntrySize, Walked;
    if v >= 0 {
      forall m: nat | m < |b.entries| && IsEntry(b, m, v) ensures IndexFrom(b, v, 0) == Some(m) {
        IndexIs(b, m, v);
      }
    }
  }

  // ------------------------------------------------------------------------- when compiled tables pass

  /** No chain bears a name that entries carry in their targets, and no chain begins with a call of itself. */
  ghost predicate Sound(rs: Ruleset) {
    && Lookup(rs, ERROR_TARGET).None?
    && forall k, i :: 0 <= k < |rs| && 0 <= i < |rs[k].rules| ==> SoundRule(rs, rs[k], i)
  }

  predicate SoundRule(rs: Ruleset, c: Chain, i: nat)
    requires i < |c.rules|
  {
    && (c.rules[i].action.Extension? ==> Lookup(rs, c.rules[i].action.name).None?)
    && (i == 0 ==> c.rules[i].action != Call(c.name))
  }

  /** Where the user chains begin. */
  ghost function UserOffset(cs: seq<ChainHead>): nat
    requires UserCount(cs) <= |cs|
  {
    Base(cs, |cs| - UserCount(cs))
  }

  /** The chain that entry number `n` belongs to. */
  lemma {:induction false} ChainOfEntry(cs: seq<ChainHead>, k: nat, n: nat) returns (c: nat)
    requires k <= |cs| && n < BaseCount(cs, k)
    ensures c < k && BaseCount(cs, c) <= n < BaseCount(cs, c + 1)
  {
    if n >= BaseCount(cs, k - 1) { c := k - 1; } else { c := ChainOfEntry(cs, k - 1, n); }
  }

  /** The entries of a walked blob have one number each. */
  lemma {:induction false} IndexIs(b: Blob, m: nat, off: nat)
    requires Walked(b, |b.entries|).Some? && m < |b.entries| && IsEntry(b, m, off)
    ensures IndexFrom(b, off, 0) == Some(m)
  {
    hide Walked;
    var i := IndexFrom(b, off, 0).value;
    if i < m { WalkedGrows(b, i, m); }
    if m < i { WalkedGrows(b, m, i); }
  }

  /** Number and offset of a place of the chains. */
  lemma {:induction false} SpotEntry(cs: seq<ChainHead>, b: Blob, k: nat, j: nat) returns (n: nat)
    requires Compiled(cs, b) && PoliciesOk(cs) && k < |cs| && j <= |cs[k].rules|
    ensures n == BaseCount(cs, k) + HeadCount(cs[k]) + j < |b.entries|
    ensures Walked(b, |b.entries|).Some? && IsEntry(b, n, Offset(cs, Spot(k, j)))
    ensures IndexFrom(b, Offset(cs, Spot(k, j)), 0) == Some(n)
    ensures b.entries[Offset(cs, Spot(k, j))] == EntryOfChain(cs[k], j)
    ensures !IsError(EntryOfChain(cs[k], j)) && Offset(cs, Spot(k, j)) < b.size
  {
    n := BaseCount(cs, k) + HeadCount(cs[k]) + j;
    BaseMonotone(cs, k + 1, |cs|);
    WalkedTo(cs, b, k, j);
    WalkedToEnd(cs, b);
    EntryRead(cs, b, k, j);
    NotTheEnd(cs, b, k, j);
    hide Compiled, Walked, Offset, BaseCount, Base, EntryOfChain;
    IndexIs(b, n, Offset(cs, Spot(k, j)));
  }

  lemma {:induction false} HeadNumber(cs: seq<ChainHead>, b: Blob, k: nat)
    requires Compiled(cs, b) && k < |cs| && cs[k].hook == 0
    ensures IsEntry(b, BaseCount(cs, k), Base(cs, k)) && b.entries[Base(cs, k)] == HeadEntry(cs[k].name)
    ensures Base(cs, k) < b.size && BaseCount(cs, k) < |b.entries|
  {
    BaseMonotone(cs, k, |cs|);
    WalkedToChain(cs, b, k);
    UserHeadLies(cs, b, k);
    WalkedToEnd(cs, b);
    hide Compiled, Walked;
  }

  /** Jumps and fallthroughs lead right, but for a chain that begins with a call of itself. */
  lemma {:induction false} RuleLeads(cs: seq<ChainHead>, b: Blob, k: nat, j: nat)
    requires Compiled(cs, b) && PoliciesOk(cs) && k < |cs| && j < |cs[k].rules| && !cs[k].rules[j].kind.Module?
    ensures LeadsRight(b, Offset(cs, Spot(k, j)), cs[k].rules[j].entry)
       <==> !(j == 0 && cs[k].rules[j].kind == Jump(cs[k].name))
    ensures cs[k].rules[j].entry.target.verdict < b.size
  {
    EntriesTell(cs, b, Spot(k, j));
    var r := cs[k].rules[j];
    match r.kind
    case Jump(name) => JumpLeads(cs, b, k, j, name);
    case Fallthrough =>
      var n := SpotEntry(cs, b, k, j + 1);
      hide Compiled, IndexFrom, Walked, PoliciesOk, Offset;
    case Standard =>
  }

  lemma {:induction false} JumpLeads(cs: seq<ChainHead>, b: Blob, k: nat, j: nat, name: Name)
    requires Compiled(cs, b) && PoliciesOk(cs) && k < |cs| && j < |cs[k].rules| && cs[k].rules[j].kind == Jump(name)
    ensures LeadsRight(b, Offset(cs, Spot(k, j)), cs[k].rules[j].entry) <==> !(j == 0 && name == cs[k].name)
    ensures cs[k].rules[j].entry.target.verdict < b.size
  {
    EntriesTell(cs, b, Spot(k, j));
    var t := Lookup(Abs(cs), name).value;
    AbsAt(cs, t);
    assert cs[t].name == name;
    JumpLandsRight(cs, b, Spot(k, j), t);
    var m := SpotEntry(cs, b, t, 0);
    HeadNumber(cs, b, t);
    SamePlace(cs, b, k, j, t);
    hide Compiled, IndexFrom, Walked, PoliciesOk, Offset, EntryTells, Lookup;
  }

  lemma {:induction false} SamePlace(cs: seq<ChainHead>, b: Blob, k: nat, j: nat, t: nat)
    requires Compiled(cs, b) && k < |cs| && t < |cs| && j < |cs[k].rules|
    ensures Offset(cs, Spot(t, 0)) == Offset(cs, Spot(k, j)) <==> j == 0 && cs[t].name == cs[k].name
  {
    PlacedInOrder(cs, b);
    Heads(cs);
    assert cs[t].name == cs[k].name ==> t == k;
    hide Compiled, Offset;
    if Offset(cs, Spot(t, 0)) == Offset(cs, Spot(k, j)) {
      OffsetsDiffer(cs, Spot(t, 0), Spot(k, j));
    }
  }

  /** A place of a chain lies behind the chain's start and before the next chain. */
  lemma {:induction false} SpotBetween(cs: seq<ChainHead>, k: nat, j: nat)
    requires Placed(cs) && k < |cs| && j <= |cs[k].rules|
    ensures Base(cs, k) + HeadSize(cs[k]) <= Offset(cs, Spot(k, j)) < Base(cs, k + 1)
  {
    OffsetIs(cs, Spot(k, j));
    SizeUpToMonotone(cs[k].rules, j, |cs[k].rules|);
    hide Placed, SizeUpTo, Offset;
  }

  lemma {:induction false} UserHead(c: ChainHead)
    ensures c.hook == 0 ==> HeadSize(c) > 0
  {
  }

  lemma {:induction false} UserOffsetIs(cs: seq<ChainHead>)
    requires UserCount(cs) <= |cs|
    ensures UserOffset(cs) == Base(cs, |cs| - UserCount(cs))
  {
  }

  lemma {:induction false} PlaceNotUserStart(cs: seq<ChainHead>, k: nat, j: nat)
    requires Placed(cs) && Ordered(Abs(cs)) && k < |cs| && j <= |cs[k].rules|
    ensures UserCount(cs) <= |cs| && Offset(cs, Spot(k, j)) != UserOffset(cs)
  {
    hide *;
    UsersLast(cs);
    var f := |cs| - UserCount(cs);
    SpotBetween(cs, k, j);
    UserHead(cs[k]);
    UserOffsetIs(cs);
    if k < f { BaseMonotone(cs, k + 1, f); } else { BaseMonotone(cs, f, k); }
  }

  /** Where a place of the chains stands towards the start of the user chains. */
  lemma {:induction false} SpotNotUserStart(cs: seq<ChainHead>, b: Blob, k: nat, j: nat)
    requires Compiled(cs, b) && k < |cs| && j <= |cs[k].rules|
    ensures UserCount(cs) <= |cs| && Offset(cs, Spot(k, j)) != UserOffset(cs)
  {
    PlacedInOrder(cs, b);
    hide *;
    PlaceNotUserStart(cs, k, j);
  }

  lemma {:induction false} UsersLast(cs: seq<ChainHead>)
    requires Ordered(Abs(cs))
    ensures UserCount(cs) <= |cs|
    ensures forall i :: 0 <= i < |cs| ==> (cs[i].hook == 0 <==> i >= |cs| - UserCount(cs))
  {
    Heads(cs);
    UsersAtEnd(cs);
  }

  /** The check on a rule's entry. */
  lemma {:induction false} RulePasses(cs: seq<ChainHead>, b: Blob, k: nat, j: nat) returns (n: nat)
    requires Compiled(cs, b) && PoliciesOk(cs) && k < |cs| && j < |cs[k].rules|
    ensures n == BaseCount(cs, k) + HeadCount(cs[k]) + j < |b.entries| && UserCount(cs) <= |cs|
    ensures k < |Abs(cs)| && j < |Abs(cs)[k].rules|
    ensures Passes(b, Abs(cs), UserOffset(cs), n) <==> SoundRule(Abs(cs), Abs(cs)[k], j)
  {
    n := SpotEntry(cs, b, k, j);
    SpotNotUserStart(cs, b, k, j);
    EntriesTell(cs, b, Spot(k, j));
    AbsAt(cs, k);
    var r := cs[k].rules[j];
    assert Abs(cs)[k].rules[j] == AbsRule(r) && KindOk(r) && ReadyRule(r);
    NoNameless(cs, b);
    if !r.kind.Module? { RuleLeads(cs, b, k, j); }
    hide Compiled, Walked, PoliciesOk, Offset, LeadsRight, Lookup, IndexFrom, UserOffset, UserCount, BaseCount;
  }

  lemma {:induction false} NoNameless(cs: seq<ChainHead>, b: Blob)
    requires Compiled(cs, b)
    ensures Lookup(Abs(cs), STANDARD_TARGET).None?
  {
  }

  /** A chain's foot always passes. */
  lemma {:induction false} FootPasses(cs: seq<ChainHead>, b: Blob, k: nat) returns (n: nat)
    requires Compiled(cs, b) && PoliciesOk(cs) && k < |cs|
    ensures n == BaseCount(cs, k) + HeadCount(cs[k]) + |cs[k].rules| < |b.entries| && UserCount(cs) <= |cs|
    ensures Passes(b, Abs(cs), UserOffset(cs), n)
    ensures cs[k].hook == 0 ==> ReturnAt(b, n)
  {
    n := SpotEntry(cs, b, k, |cs[k].rules|);
    SpotNotUserStart(cs, b, k, |cs[k].rules|);
    NoNameless(cs, b);
    hide Compiled, Walked, Offset, Lookup, IndexFrom, UserOffset, UserCount, BaseCount;
  }

  lemma {:induction false} FootNumber(cs: seq<ChainHead>, k: nat)
    requires k < |cs|
    ensures BaseCount(cs, k) + HeadCount(cs[k]) + |cs[k].rules| == BaseCount(cs, k + 1) - 1
  {
  }

  lemma {:induction false} StartNumber(cs: seq<ChainHead>)
    requires UserCount(cs) <= |cs|
    ensures Base(cs, |cs| - UserCount(cs)) == UserOffset(cs)
  {
  }

  lemma {:induction false} ErrorNodeIs(cs: seq<ChainHead>, b: Blob, k: nat)
    requires k <= |cs| && UserCount(cs) <= |cs| && IsEntry(b, BaseCount(cs, k), Base(cs, k))
    requires b.entries[Base(cs, k)].target.name == ERROR_TARGET
             && TargetSize(b.entries[Base(cs, k)].target) == ERROR_SIZE
    requires Base(cs, k) == UserOffset(cs) || (BaseCount(cs, k) > 0 && ReturnAt(b, BaseCount(cs, k) - 1))
    ensures Passes(b, Abs(cs), UserOffset(cs), BaseCount(cs, k)) <==> Lookup(Abs(cs), ERROR_TARGET).None?
  {
    hide Lookup, Walked, UserOffset, BaseCount, Base, ReturnAt;
  }

  /** An error node at the start of chain `k`, or at the end of the table, passes if no chain is named like it:
      it stands at the start of the user chains, or behind the return of a user chain. */
  lemma {:induction false} ErrorNodePasses(cs: seq<ChainHead>, b: Blob, k: nat)
    requires Compiled(cs, b) && PoliciesOk(cs) && k <= |cs| && UserCount(cs) <= |cs| && k >= |cs| - UserCount(cs)
    ensures BaseCount(cs, k) < |b.entries|
    ensures Passes(b, Abs(cs), UserOffset(cs), BaseCount(cs, k)) <==> Lookup(Abs(cs), ERROR_TARGET).None?
  {
    hide *;
    PlacedInOrder(cs, b);
    UsersLast(cs);
    ErrorNodeAt(cs, b, k);
    var f := |cs| - UserCount(cs);
    BaseMonotone(cs, f, k);
    if k > f {
      var n := FootPasses(cs, b, k - 1);
      FootNumber(cs, k - 1);
    } else {
      StartNumber(cs);
    }
    ErrorNodeIs(cs, b, k);
  }

  lemma {:induction false} ErrorNodeAt(cs: seq<ChainHead>, b: Blob, k: nat)
    requires Compiled(cs, b) && k <= |cs| && (k < |cs| ==> cs[k].hook == 0)
    ensures BaseCount(cs, k) < |b.entries| && IsEntry(b, BaseCount(cs, k), Base(cs, k))
    ensures b.entries[Base(cs, k)].target.name == ERROR_TARGET
            && TargetSize(b.entries[Base(cs, k)].target) == ERROR_SIZE
  {
    if k < |cs| {
      HeadNumber(cs, b, k);
    } else {
      WalkedToEnd(cs, b);
      WalkedToChain(cs, b, k);
    }
  }

  /** A compiled table passes the library's checks exactly when no chain is named like an error node or like the
      extension of a rule, and no chain begins with a call of itself. */
  lemma {:induction false} CompiledPassesIff(cs: seq<ChainHead>, b: Blob)
    requires Compiled(cs, b) && PoliciesOk(cs)
    ensures UserCount(cs) <= |cs|
    ensures (forall n :: 0 <= n < |b.entries| ==> Passes(b, Abs(cs), UserOffset(cs), n)) <==> Sound(Abs(cs))
  {
    PlacedInOrder(cs, b);
    UsersLast(cs);
    WalkedToEnd(cs, b);
    AbsLengths(cs);
    hide Compiled, Walked, PoliciesOk, Lookup, UserOffset, UserCount, Passes, SoundRule, BaseCount, Abs;
    ErrorNodePasses(cs, b, |cs|);
    if forall n :: 0 <= n < |b.entries| ==> Passes(b, Abs(cs), UserOffset(cs), n) {
      forall k, i | 0 <= k < |Abs(cs)| && 0 <= i < |Abs(cs)[k].rules| ensures SoundRule(Abs(cs), Abs(cs)[k], i) {
        var n := RulePasses(cs, b, k, i);
      }
    }
    if Sound(Abs(cs)) {
      forall n | 0 <= n < |b.entries| ensures Passes(b, Abs(cs), UserOffset(cs), n) {
        SoundPasses(cs, b, n);
      }
    }
  }

  lemma {:induction false} AbsLengths(cs: seq<ChainHead>)
    ensures |Abs(cs)| == |cs| && forall k :: 0 <= k < |cs| ==> |Abs(cs)[k].rules| == |cs[k].rules|
  {
    forall k | 0 <= k < |cs| ensures |Abs(cs)[k].rules| == |cs[k].rules| { AbsAt(cs, k); }
  }

  lemma {:induction false} SoundPasses(cs: seq<ChainHead>, b: Blob, n: nat)
    requires Compiled(cs, b) && PoliciesOk(cs) && n < |b.entries| && Sound(Abs(cs))
    ensures UserCount(cs) <= |cs| && Passes(b, Abs(cs), UserOffset(cs), n)
  {
    hide *;
    PlacedInOrder(cs, b);
    UsersLast(cs);
    WalkedToEnd(cs, b);
    AbsLengths(cs);
    SoundAt(Abs(cs));
    if n == TableCount(cs) - 1 {
      LastNumber(cs);
      ErrorNodePasses(cs, b, |cs|);
    } else {
      var k, j := PlaceOfEntry(cs, n);
      if j == -1 {
        ErrorNodePasses(cs, b, k);
      } else if j < |cs[k].rules| {
        var m := RulePasses(cs, b, k, j);
        SoundRuleAt(Abs(cs), k, j);
      } else {
        var m := FootPasses(cs, b, k);
      }
    }
  }

  lemma {:induction false} LastNumber(cs: seq<ChainHead>)
    ensures TableCount(cs) - 1 == BaseCount(cs, |cs|)
  {
  }

  lemma {:induction false} SoundAt(rs: Ruleset)
    requires Sound(rs)
    ensures Lookup(rs, ERROR_TARGET).None?
  {
  }

  lemma {:induction false} SoundRuleAt(rs: Ruleset, k: nat, j: nat)
    requires Sound(rs) && k < |rs| && j < |rs[k].rules|
    ensures SoundRule(rs, rs[k], j)
  {
  }

  /** Which place an entry number belongs to; -1 stands for the error node of a user chain. */
  lemma {:induction false} PlaceOfEntry(cs: seq<ChainHead>, n: nat) returns (k: nat, j: int)
    requires n < TableCount(cs) - 1
    ensures k < |cs| && -1 <= j <= |cs[k].rules|
    ensures j == -1 ==> cs[k].hook == 0 && n == BaseCount(cs, k)
    ensures j >= 0 ==> n == BaseCount(cs, k) + HeadCount(cs[k]) + j
  {
    k := ChainOfEntry(cs, |cs|, n);
    j := n - BaseCount(cs, k) - HeadCount(cs[k]);
  }

  // ------------------------------------------------------------------------- a chain that calls itself

  /** A table with one chain, whose only rule calls the chain itself, as it is made and compiled. */
  function SelfRule(): RuleHead {
    RuleHead(Jump("a"), Entry(BLANK_IP, [], Target(STANDARD_TARGET, Zeros(8), 176, ""), ZERO_COUNTERS), 152, NoMap, 1,
             176)
  }

  function SelfCalling(): seq<ChainHead> {
    [ChainHead("a", 0, 1, 0, ZERO_COUNTERS, NoMap, 1, [SelfRule()], 0, 0, 2, 328)]
  }

  function SelfBlob(): Blob {
    Blob(map[0 := HeadEntry("a"), 176 := SelfRule().entry, 328 := FootEntry(RETURN, ZERO_COUNTERS),
             480 := HeadEntry(ERROR_TARGET)],
         656, map[], map[])
  }

  lemma {:induction false} SelfAbs()
    ensures Abs(SelfCalling()) == [Chain("a", 0, RETURN, [Rule(BLANK_IP, [], STANDARD_SIZE, Call("a"))])]
    ensures WellFormed(Abs(SelfCalling()))
  {
    var r, c := SelfRule(), SelfCalling()[0];
    assert AbsRule(r) == Rule(BLANK_IP, [], STANDARD_SIZE, Call("a"));
    assert Map([r], AbsRule)[0] == AbsRule(r);
    assert Map([r], AbsRule) == [AbsRule(r)];
    assert AbsChain(c) == Chain("a", 0, RETURN, [AbsRule(r)]);
    assert Abs([c])[0] == AbsChain(c);
    var rs := Abs(SelfCalling());
    assert rs == [AbsChain(c)];
    assert IsUser(rs, "a") by { assert rs[0].name == "a"; }
  }

  lemma {:induction false} SelfPlaced()
    ensures Placed(SelfCalling()) && SizesOk(SelfCalling()) && TableSize(SelfCalling()) == 656
            && TableCount(SelfCalling()) == 4
  {
    var cs, rules := SelfCalling(), [SelfRule()];
    var c := cs[0];
    assert MatchesSize([]) == 0;
    assert SizeUpTo(rules, 0) == 0;
    assert SizeUpTo(rules, 1) == SizeUpTo(rules, 0) + rules[0].size;
    assert c.rules == rules && ChainSize(c) == 480 && ChainCount(c) == 3;
    assert Base(cs, 0) == 0 && BaseCount(cs, 0) == 0;
    assert Base(cs, 1) == Base(cs, 0) + ChainSize(cs[0]) && BaseCount(cs, 1) == BaseCount(cs, 0) + ChainCount(cs[0]);
    assert ChainPlaced(c, 0, 0);
  }

  lemma {:induction false} SelfHeld()
    ensures HoldsUpTo(SelfBlob().entries, SelfCalling(), 1) && |SelfBlob().entries| == 4
    ensures EntryAt(SelfBlob().entries, 480, HeadEntry(ERROR_TARGET)) && HooksUpTo(SelfBlob(), SelfCalling(), 1)
  {
    hide HeadEntry, FootEntry;
    var entries := SelfBlob().entries;
    assert entries.Keys == {0, 176, 328, 480};
    assert FootOf(SelfCalling()[0]) == FootEntry(RETURN, ZERO_COUNTERS);
    assert HoldsChain(entries, SelfCalling()[0]);
  }

  lemma {:induction false} SelfCompiled()
    ensures Compiled(SelfCalling(), SelfBlob()) && PoliciesOk(SelfCalling())
  {
    SelfAbs();
    SelfPlaced();
    SelfHeld();
    var cs := SelfCalling();
    assert VerdictOk(cs, SelfRule()) by { assert cs[0].name == "a" && cs[0].headOffset + HEAD_SIZE == 176; }
    hide WellFormed, Placed, SizesOk, TableSize, TableCount, HoldsUpTo, HooksUpTo, EntryAt, VerdictOk;
  }

  /** The library lets a chain begin with a call of itself, and compiles it; its own check then fails. */
  lemma {:induction false} SelfCallFails() returns (cs: seq<ChainHead>, b: Blob, n: nat)
    ensures Compiled(cs, b) && PoliciesOk(cs)
    ensures Abs(cs) == [Chain("a", 0, RETURN, [Rule(BLANK_IP, [], STANDARD_SIZE, Call("a"))])]
    ensures UserCount(cs) <= |cs| && n < |b.entries| && !Passes(b, Abs(cs), UserOffset(cs), n)
  {
    cs, b := SelfCalling(), SelfBlob();
    SelfAbs();
    SelfCompiled();
    hide SelfCalling, SelfBlob, Compiled, PoliciesOk, Passes, UserOffset, UserCount;
    CompiledPassesIff(cs, b);
    assert !SoundRule(Abs(cs), Abs(cs)[0], 0);
    n :| 0 <= n < |b.entries| && !Passes(b, Abs(cs), UserOffset(cs), n);
  }
}
