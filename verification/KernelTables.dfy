/** Every table that the library compiles is a table as the kernel keeps it, with its chains in order. */
module KernelTables {
  import opened Names
  import opened Seqs
  import opened Rulesets
  import opened Cache
  import opened HandleFacts
  import opened Layout
  import opened Compiler
  import opened Walk
  import opened RoundTrip
  import opened Snapshot
  import opened Reading
  import P = Parser
  import O = ParserOrder

  // -------------------------------------------------------------------------- entries by their numbers

  lemma {:induction false} Numbered(b: Blob, y: nat, off: nat, e: Entry)
    requires Walked(b, y) == Some(off) && EntryAt(b.entries, off, e)
    ensures O.OffsetNo(b, y) == off && O.EntryNo(b, y) == e
  {
  }

  /** The number of the entry at a spot. */
  lemma {:induction false} SpotEntry(cs: seq<ChainHead>, b: Blob, k: nat, j: nat)
    requires Compiled(cs, b) && k < |cs| && j <= |cs[k].rules|
    ensures var y := BaseCount(cs, k) + HeadCount(cs[k]) + j;
      && y < BaseCount(cs, k + 1) <= TableCount(cs) - 1
      && O.OffsetNo(b, y) == Offset(cs, Spot(k, j)) && O.EntryNo(b, y) == EntryOfChain(cs[k], j)
  {
    BaseMonotone(cs, k + 1, |cs|);
    EntryOf(cs, b, Spot(k, j));
    WalkedTo(cs, b, k, j);
    hide Compiled, Walked, Offset;
    Numbered(b, BaseCount(cs, k) + HeadCount(cs[k]) + j, Offset(cs, Spot(k, j)), EntryOfChain(cs[k], j));
  }

  lemma {:induction false} HeadEntryNo(cs: seq<ChainHead>, b: Blob, k: nat)
    requires Compiled(cs, b) && k < |cs| && cs[k].hook == 0
    ensures var y := BaseCount(cs, k);
      && y < BaseCount(cs, k + 1) <= TableCount(cs) - 1
      && O.OffsetNo(b, y) == Base(cs, k) && O.EntryNo(b, y) == HeadEntry(cs[k].name)
      && O.OffsetNo(b, y + 1) == Base(cs, k) + HEAD_SIZE
  {
    BaseMonotone(cs, k + 1, |cs|);
    UserHeadLies(cs, b, k);
    WalkedToChain(cs, b, k);
    SpotEntry(cs, b, k, 0);
    hide Compiled, Walked, Offset;
    Numbered(b, BaseCount(cs, k), Base(cs, k), HeadEntry(cs[k].name));
  }

  /** Of the entries of a chain just the first begins it. */
  lemma {:induction false} BeginsFirst(cs: seq<ChainHead>, b: Blob, k: nat)
    requires Compiled(cs, b) && PoliciesOk(cs) && k < |cs|
    ensures O.BeginsChain(b, BaseCount(cs, k))
    ensures O.HookNo(b, BaseCount(cs, k)) == cs[k].hook && O.NameNo(b, BaseCount(cs, k)) == cs[k].name
  {
    if cs[k].hook == 0 {
      HeadEntryNo(cs, b, k);
      UserHeadLies(cs, b, k);
      hide Compiled, O.OffsetNo, O.EntryNo, P.HookAt, Offset;
    } else {
      SpotEntry(cs, b, k, 0);
      EntryRead(cs, b, k, 0);
      HookFound(cs, b, k, 0);
      NotTheEnd(cs, b, k, 0);
      EntryEnds(cs, b, k, 0);
      HookName(cs, b, k);
      hide Compiled, O.OffsetNo, O.EntryNo, P.HookAt, Offset;
    }
  }

  lemma {:induction false} HookName(cs: seq<ChainHead>, b: Blob, k: nat)
    requires Compiled(cs, b) && k < |cs| && cs[k].hook > 0
    ensures cs[k].hook <= |HOOK_NAMES| && cs[k].name == HOOK_NAMES[cs[k].hook - 1]
  {
    Heads(cs);
    assert HooksOk(Abs(cs)) by { hide HooksOk, NamesDiffer, Ordered, RulesOk; }
    hide Compiled, Abs;
  }

  lemma {:induction false} OthersBeginNone(cs: seq<ChainHead>, b: Blob, k: nat, y: nat)
    requires Compiled(cs, b) && PoliciesOk(cs) && k < |cs| && BaseCount(cs, k) < y < BaseCount(cs, k + 1)
    ensures !O.BeginsChain(b, y)
  {
    var j := y - BaseCount(cs, k) - HeadCount(cs[k]);
    SpotEntry(cs, b, k, j);
    EntryRead(cs, b, k, j);
    HookFound(cs, b, k, j);
    hide Compiled, O.OffsetNo, O.EntryNo, P.HookAt, Offset;
  }

  lemma {:induction false} BeginsSteady(b: Blob, n: nat, m: nat)
    requires n <= m && forall y :: n <= y < m ==> !O.BeginsChain(b, y)
    ensures O.Begins(b, m) == O.Begins(b, n)
  {
    hide O.BeginsChain;
    if n < m {
      BeginsSteady(b, n, m - 1);
    }
  }

  /** The entries that begin a chain are the first ones of the chains. */
  lemma {:induction false} BeginsAre(cs: seq<ChainHead>, b: Blob, k: nat)
    requires Compiled(cs, b) && PoliciesOk(cs) && k <= |cs|
    ensures |O.Begins(b, BaseCount(cs, k))| == k
    ensures forall x :: 0 <= x < k ==> O.Begins(b, BaseCount(cs, k))[x] == BaseCount(cs, x)
  {
    hide *;
    if k == 0 {
      BeginsNone(cs, b);
    } else {
      BeginsAre(cs, b, k - 1);
      BeginsOne(cs, b, k - 1);
    }
  }

  lemma {:induction false} BeginsNone(cs: seq<ChainHead>, b: Blob)
    ensures O.Begins(b, BaseCount(cs, 0)) == []
  {
  }

  lemma {:induction false} BeginsMore(b: Blob, n: nat)
    requires O.BeginsChain(b, n)
    ensures O.Begins(b, n + 1) == O.Begins(b, n) + [n]
  {
    hide O.BeginsChain;
  }

  lemma {:induction false} BeginsOne(cs: seq<ChainHead>, b: Blob, k: nat)
    requires Compiled(cs, b) && PoliciesOk(cs) && k < |cs|
    ensures O.Begins(b, BaseCount(cs, k + 1)) == O.Begins(b, BaseCount(cs, k)) + [BaseCount(cs, k)]
  {
    hide *;
    BeginsFirst(cs, b, k);
    var first, next := BaseCount(cs, k), BaseCount(cs, k + 1);
    NextBase(cs, k);
    forall y | first + 1 <= y < next ensures !O.BeginsChain(b, y) {
      OthersBeginNone(cs, b, k, y);
    }
    BeginsMore(b, first);
    BeginsSteady(b, first + 1, next);
  }

  lemma {:induction false} NextBase(cs: seq<ChainHead>, k: nat)
    requires k < |cs|
    ensures BaseCount(cs, k) < BaseCount(cs, k + 1)
  {
  }

  // ------------------------------------------------------------------------------------ the conditions

  /** The entry with a number belongs to some chain. */
  lemma {:induction false} ChainOf(cs: seq<ChainHead>, k: nat, y: nat) returns (c: nat)
    requires k <= |cs| && y < BaseCount(cs, k)
    ensures c < k && BaseCount(cs, c) <= y < BaseCount(cs, c + 1)
  {
    if y >= BaseCount(cs, k - 1) { c := k - 1; } else { c := ChainOf(cs, k - 1, y); }
  }

  lemma {:induction false} JumpsRight(cs: seq<ChainHead>, b: Blob, y: nat)
    requires Compiled(cs, b) && PoliciesOk(cs) && y < BaseCount(cs, |cs|) && IsJump(b, y)
    ensures JumpsToChain(b, y, TableCount(cs) - 1)
  {
    var k := ChainOf(cs, |cs|, y);
    if y == BaseCount(cs, k) && cs[k].hook == 0 {
      HeadEntryNo(cs, b, k);
      assert false;
    } else {
      var j := y - BaseCount(cs, k) - HeadCount(cs[k]);
      SpotEntry(cs, b, k, j);
      FootIsNoJump(cs, k);
      var t := JumpOf(cs, b, k, j);
      HeadEntryNo(cs, b, t);
      BeginsFirst(cs, b, t);
      hide Compiled, PoliciesOk, O.BeginsChain, O.EntryNo, O.OffsetNo, Offset;
      assert O.IsError(b, BaseCount(cs, t));
    }
  }

  lemma {:induction false} FootIsNoJump(cs: seq<ChainHead>, k: nat)
    requires PoliciesOk(cs) && k < |cs|
    ensures EntryOfChain(cs[k], |cs[k].rules|).target.verdict < 0
    ensures IsVerdict(EntryOfChain(cs[k], |cs[k].rules|), if cs[k].hook > 0 then cs[k].verdict else RETURN)
  {
  }

  /** A rule whose entry is a jump leads behind the head of a user chain. */
  lemma {:induction false} JumpOf(cs: seq<ChainHead>, b: Blob, k: nat, j: nat) returns (t: nat)
    requires Compiled(cs, b) && k < |cs| && j < |cs[k].rules|
    requires cs[k].rules[j].entry.target.name == STANDARD_TARGET && cs[k].rules[j].entry.target.verdict >= 0
    requires cs[k].rules[j].entry.target.verdict != Offset(cs, Spot(k, j)) + EntrySize(cs[k].rules[j].entry)
    ensures t < |cs| && cs[t].hook == 0 && cs[k].rules[j].entry.target.verdict == Base(cs, t) + HEAD_SIZE
  {
    var r := cs[k].rules[j];
    EntriesTell(cs, b, Spot(k, j));
    assert VerdictOk(cs, r);
    assert r.kind.Jump?;
    t :| 0 <= t < |cs| && cs[t].name == r.kind.target && cs[t].hook == 0
         && r.entry.target.verdict == cs[t].headOffset + HEAD_SIZE;
    assert ChainPlaced(cs[t], Base(cs, t), BaseCount(cs, t));
  }

  lemma {:induction false} EndsRight(cs: seq<ChainHead>, b: Blob, x: nat)
    requires Compiled(cs, b) && PoliciesOk(cs) && x < |cs|
    ensures EndsWell(b, BaseCount(cs, x), BaseCount(cs, x + 1))
  {
    var n := |cs[x].rules|;
    SpotEntry(cs, b, x, n);
    BeginsFirst(cs, b, x);
    FootIsNoJump(cs, x);
    assert HookHeld(b, cs[x]);
    assert BaseCount(cs, x + 1) - 1 == BaseCount(cs, x) + HeadCount(cs[x]) + n;
    hide Compiled, PoliciesOk, O.BeginsChain, O.EntryNo, O.OffsetNo, O.HookNo, EntryOfChain;
  }

  lemma {:induction false} TitlesDiffer(cs: seq<ChainHead>, b: Blob)
    requires Compiled(cs, b)
    ensures forall k :: 0 <= k < |cs| ==> cs[k].name != ""
    ensures forall j, k :: 0 <= j < k < |cs| ==> cs[j].name != cs[k].name && (cs[k].hook > 0 ==> cs[j].hook > 0)
  {
    Heads(cs);
    assert NamesDiffer(Abs(cs)) && Ordered(Abs(cs)) by { hide HooksOk, NamesDiffer, Ordered, RulesOk; }
    hide Compiled, Abs;
  }

  /** Compiled tables are kernel tables. */
  lemma {:induction false} CompiledIsKernelTable(cs: seq<ChainHead>, b: Blob)
    requires Compiled(cs, b) && PoliciesOk(cs)
    ensures KernelTable(b, TableCount(cs))
  {
    hide *;
    var m := TableCount(cs) - 1;
    LastCount(cs);
    WalkedToEnd(cs, b);
    ReadAll(cs, b);
    BeginsAre(cs, b, |cs|);
    TitlesDiffer(cs, b);
    var hs := O.Begins(b, m);
    forall x | 0 <= x < |hs|
      ensures O.HookNo(b, hs[x]) == cs[x].hook && O.NameNo(b, hs[x]) == cs[x].name
      ensures EndsWell(b, hs[x], NextOf(hs, x, m))
    {
      NextOfIs(hs, x, m);
      BeginsFirst(cs, b, x);
      EndsRight(cs, b, x);
    }
    forall y | 0 <= y < m && IsJump(b, y) ensures JumpsToChain(b, y, m) {
      JumpsRight(cs, b, y);
    }
    IsKernelTable(cs, b, m + 1);
  }

  lemma {:induction false} LastCount(cs: seq<ChainHead>)
    ensures TableCount(cs) - 1 == BaseCount(cs, |cs|)
  {
  }

  lemma {:induction false} NextOfIs(hs: seq<nat>, x: nat, m: nat)
    ensures NextOf(hs, x, m) == if x + 1 < |hs| then hs[x + 1] else m
  {
  }

  lemma {:induction false} IsKernelTable(cs: seq<ChainHead>, b: Blob, n: nat)
    requires n > 0 && Walked(b, n) == Some(b.size) && P.ReadFrom(b, P.START, 0).Go?
    requires forall k :: 0 <= k < |cs| ==> cs[k].name != ""
    requires forall j, k :: 0 <= j < k < |cs| ==> cs[j].name != cs[k].name && (cs[k].hook > 0 ==> cs[j].hook > 0)
    requires var hs := O.Begins(b, n - 1);
      && |hs| == |cs|
      && (forall x :: 0 <= x < |hs| ==> O.HookNo(b, hs[x]) == cs[x].hook && O.NameNo(b, hs[x]) == cs[x].name)
      && forall x :: 0 <= x < |hs| ==> EndsWell(b, hs[x], NextOf(hs, x, n - 1))
    requires forall y :: 0 <= y < n - 1 && IsJump(b, y) ==> JumpsToChain(b, y, n - 1)
    ensures KernelTable(b, n)
  {
    hide O.Begins, O.HookNo, O.NameNo, EndsWell, NextOf, IsJump, JumpsToChain, P.ReadFrom, Walked;
  }
}
