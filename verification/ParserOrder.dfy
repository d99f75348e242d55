/** The order of the chains that are read: a kernel table whose user chains come in any order is read into sorted ones,
    and nothing is lost or made up on the way. */
module ParserOrder {
  import opened Names
  import opened Seqs
  import opened Rulesets
  import opened Editing
  import opened Cache
  import opened HandleFacts
  import opened Compiler
  import opened Walk
  import Snapshot
  import P = Parser

  // -------------------------------------------------------------------------- the chains of a blob

  /** Where entry number `n` lies. */
  function OffsetNo(b: Blob, n: nat): nat {
    match Snapshot.Walked(b, n)
    case Some(off) => off
    case None => 0
  }

  function EntryNo(b: Blob, n: nat): Entry {
    if OffsetNo(b, n) in b.entries then b.entries[OffsetNo(b, n)] else Layout.FootEntry(RETURN, ZERO_COUNTERS)
  }

  predicate IsError(b: Blob, n: nat) { EntryNo(b, n).target.name == ERROR_TARGET }

  /** Entry `n` begins a chain: an error node that is not the last entry, or an entry with a hook. */
  predicate BeginsChain(b: Blob, n: nat) {
    OffsetNo(b, n) + EntrySize(EntryNo(b, n)) != b.size && (IsError(b, n) || P.HookAt(b, OffsetNo(b, n)) > 0)
  }

  function HookNo(b: Blob, n: nat): nat { if IsError(b, n) then 0 else P.HookAt(b, OffsetNo(b, n)) }

  function NameNo(b: Blob, n: nat): Name {
    if IsError(b, n) then EntryNo(b, n).target.text
    else if HookNo(b, n) > 0 then HOOK_NAMES[HookNo(b, n) - 1] else ""
  }

  /** The numbers of the entries that begin a chain, up to entry `n`. */
  function Begins(b: Blob, n: nat): (hs: seq<nat>)
    ensures forall k :: 0 <= k < |hs| ==> hs[k] < n && BeginsChain(b, hs[k])
  {
    if n == 0 then [] else Begins(b, n - 1) + if BeginsChain(b, n - 1) then [n - 1] else []
  }

  /** The first rule of the chain that begins with entry `i`: the entry itself, or the one behind the error node. */
  function FirstRule(b: Blob, i: nat): nat { if HookNo(b, i) > 0 then i else i + 1 }

  function RuleNo(b: Blob, n: nat): RuleHead {
    var e, off := EntryNo(b, n), OffsetNo(b, n);
    var kind := match P.KindOf(e, off) case Some(kind) => kind case None => Standard;
    RuleHead(kind, e, EntrySize(e), NormalMap(n), n, off)
  }

  function RulesNo(b: Blob, from: nat, to: nat): seq<RuleHead>
    requires from <= to
  {
    seq(to - from, i requires 0 <= i < to - from => RuleNo(b, from + i))
  }

  /** The chain that begins with entry `i`, as far as the entries before `n` go. */
  function OpenChain(b: Blob, i: nat, n: nat): ChainHead
    requires i < n
  {
    var first := FirstRule(b, i);
    NewChain(NameNo(b, i), HookNo(b, i)).(
      rules := RulesNo(b, first, n), numRules := n - first, index := i, headOffset := OffsetNo(b, i))
  }

  /** The same chain complete: entry `n - 1` holds its policy. */
  function WholeChain(b: Blob, i: nat, n: nat): ChainHead
    requires FirstRule(b, i) < n
  {
    var first, policy := FirstRule(b, i), EntryNo(b, n - 1);
    NewChain(NameNo(b, i), HookNo(b, i)).(
      rules := RulesNo(b, first, n - 1), numRules := n - 1 - first, index := i, headOffset := OffsetNo(b, i),
      verdict := policy.target.verdict, counters := policy.counters, counterMap := NormalMap(n - 1),
      footIndex := n, footOffset := OffsetNo(b, n - 1))
  }

  /** The last entry of every chain but the last comes behind its first rule. */
  predicate Filled(b: Blob, hs: seq<nat>) {
    forall k :: 0 <= k < |hs| - 1 ==> FirstRule(b, hs[k]) < hs[k + 1]
  }

  /** The chains that begin at these entries, one behind the other, the last one still open at entry `n`. */
  function ChainsOpen(b: Blob, hs: seq<nat>, n: nat): (cs: seq<ChainHead>)
    requires Filled(b, hs) && (hs != [] ==> hs[|hs| - 1] < n)
    ensures |cs| == |hs|
  {
    seq(|hs|, k requires 0 <= k < |hs| =>
      if k < |hs| - 1 then WholeChain(b, hs[k], hs[k + 1]) else OpenChain(b, hs[k], n))
  }

  /** The chains that begin at these entries, one behind the other, all of them complete. */
  function ChainsWhole(b: Blob, hs: seq<nat>, n: nat): (cs: seq<ChainHead>)
    requires Filled(b, hs) && (hs != [] ==> FirstRule(b, hs[|hs| - 1]) < n)
    ensures |cs| == |hs|
  {
    seq(|hs|, k requires 0 <= k < |hs| => WholeChain(b, hs[k], if k < |hs| - 1 then hs[k + 1] else n))
  }

  // -------------------------------------------------------------------------------- the step law

  lemma {:induction false} OrderBy(cs: seq<ChainHead>, cs': seq<ChainHead>)
    requires |cs'| == |cs| && Ordered(Abs(cs))
    requires forall k :: 0 <= k < |cs| ==> cs'[k].name == cs[k].name && cs'[k].hook == cs[k].hook
    ensures Ordered(Abs(cs'))
  {
    Heads(cs);
    Heads(cs');
    hide Abs;
  }

  lemma {:induction false} PolicyKeeps(p: P.State, q: P.State)
    requires P.DelPolicy(p) == P.Go(q)
    ensures |q.chains| == |p.chains|
    ensures forall k :: 0 <= k < |p.chains| ==>
      q.chains[k].name == p.chains[k].name && q.chains[k].hook == p.chains[k].hook
  {
  }

  /** Chains in order with a new one behind them all. */
  lemma {:induction false} OrderedAtEnd(cs: seq<ChainHead>, c: ChainHead)
    requires Ordered(Abs(cs))
    requires c.hook > 0 ==> forall k :: 0 <= k < |cs| ==> cs[k].hook > 0
    requires c.hook == 0 && cs != [] ==> Less(cs[|cs| - 1].name, c.name)
    ensures Ordered(Abs(cs + [c]))
  {
    Heads(cs);
    Heads(cs + [c]);
    var rs, rs' := Abs(cs), Abs(cs + [c]);
    hide Abs;
    if c.hook == 0 {
      forall j | 0 <= j < |cs| && cs[j].hook == 0 ensures Less(cs[j].name, c.name) {
        assert rs[j].hook == 0;
        if j < |cs| - 1 {
          Transitive(cs[j].name, cs[|cs| - 1].name, c.name);
        }
      }
    }
  }

  lemma {:induction false} OrderedInside(cs: seq<ChainHead>, c: ChainHead)
    requires Ordered(Abs(cs)) && c.hook == 0 && forall k :: 0 <= k < |cs| ==> cs[k].name != c.name
    ensures Ordered(Abs(InsertAt(cs, Place(Abs(cs), c.name), c)))
  {
    Heads(cs);
    AbsInsert(cs, Place(Abs(cs), c.name), c);
    hide Abs, InsertAt, Place;
    AboveThePlace(Abs(cs), c.name);
    PutInOrder(Abs(cs), Place(Abs(cs), c.name), AbsChain(c));
  }

  lemma {:induction false} AbsInsert(cs: seq<ChainHead>, at: nat, c: ChainHead)
    requires at <= |cs|
    ensures |Abs(cs)| == |cs| && Abs(InsertAt(cs, at, c)) == InsertAt(Abs(cs), at, AbsChain(c))
  {
    MapInsert(cs, at, c, AbsChain);
  }

  /** Chains that are in order are in order when one more has been read, whatever its name: a user chain with a new name
      goes to its place, a builtin chain behind the others as long as no user chain has been read. */
  lemma {:induction false} AddingKeepsOrder(p: P.State, c: ChainHead, off: nat, q: P.State)
    requires P.AddChain(p, c, off) == P.Go(q) && Ordered(Abs(p.chains))
    requires forall k :: 0 <= k < |p.chains| ==> p.chains[k].name != c.name
    requires c.hook > 0 ==> forall k :: 0 <= k < |p.chains| ==> p.chains[k].hook > 0
    ensures Ordered(Abs(q.chains)) && |q.chains| == |p.chains| + 1
    ensures q.cur.Some? && q.cur.value < |q.chains| && q.chains[q.cur.value].name == c.name
  {
    var d := P.DelPolicy(p).state;
    PolicyKeeps(p, d);
    OrderBy(p.chains, d.chains);
    var c' := c.(headOffset := off, index := d.num);
    var at := PlaceRead(p, c, off, q, d);
    hide Abs, Place, P.AddChain, P.DelPolicy, Ordered;
    PlacedInOrder(d.chains, c', at);
  }

  /** The place that a chain is put at. */
  lemma {:induction false} PlaceRead(p: P.State, c: ChainHead, off: nat, q: P.State, d: P.State) returns (at: nat)
    requires P.AddChain(p, c, off) == P.Go(q) && P.DelPolicy(p) == P.Go(d)
    ensures at <= |d.chains|
    ensures q == d.(chains := InsertAt(d.chains, at, c.(headOffset := off, index := d.num)), cur := Some(at))
    ensures at == if c.hook > 0 || d.chains == [] || Less(d.chains[|d.chains| - 1].name, c.name) then |d.chains|
                  else Place(Abs(d.chains), c.name)
  {
    at := q.cur.value;
    Heads(d.chains);
    if d.chains != [] {
      Antisymmetric(c.name, d.chains[|d.chains| - 1].name);
    }
    hide Abs, Place, P.DelPolicy;
  }

  lemma {:induction false} PlacedInOrder(cs: seq<ChainHead>, c: ChainHead, at: nat)
    requires Ordered(Abs(cs)) && at <= |cs|
    requires forall k :: 0 <= k < |cs| ==> cs[k].name != c.name
    requires c.hook > 0 ==> forall k :: 0 <= k < |cs| ==> cs[k].hook > 0
    requires at == if c.hook > 0 || cs == [] || Less(cs[|cs| - 1].name, c.name) then |cs| else Place(Abs(cs), c.name)
    ensures Ordered(Abs(InsertAt(cs, at, c)))
  {
    hide Abs, Place, Ordered;
    if at == |cs| && (c.hook > 0 || cs == [] || Less(cs[|cs| - 1].name, c.name)) {
      OrderedAtEnd(cs, c);
      assert InsertAt(cs, at, c) == cs + [c];
    } else {
      OrderedInside(cs, c);
    }
  }

  // ----------------------------------------------------------------------------------- nothing is lost

  lemma {:induction false} SwapOne<T>(s: seq<T>, t: seq<T>, i: nat, j: nat, x: T)
    requires i < |s| && j < |t| && multiset(s) == multiset(t) && s[i] == t[j]
    ensures multiset(s[i := x]) == multiset(t[j := x])
  {
  }

  lemma {:induction false} PutIn<T>(s: seq<T>, at: nat, x: T)
    requires at <= |s|
    ensures multiset(InsertAt(s, at, x)) == multiset(s) + multiset{x}
  {
    assert s == s[..at] + s[at..];
  }

  /** After `n` entries the chains read are those that begin among them, in some order; the one being read is the last
      that has begun. */
  ghost predicate Reads(b: Blob, n: nat, p: P.State) {
    var hs := Begins(b, n);
    && p.num == n && Filled(b, hs)
    && multiset(p.chains) == multiset(ChainsOpen(b, hs, n))
    && (if hs == [] then p.cur == None
        else p.cur.Some? && p.cur.value < |p.chains| && p.chains[p.cur.value] == OpenChain(b, hs[|hs| - 1], n))
  }

  lemma {:induction false} OneMoreRule(b: Blob, i: nat, n: nat)
    requires i < n
    ensures OpenChain(b, i, n + 1)
         == OpenChain(b, i, n).(rules := OpenChain(b, i, n).rules + [RuleNo(b, n)],
                                numRules := OpenChain(b, i, n).numRules + 1)
  {
    var first := FirstRule(b, i);
    assert first <= n;
    hide RuleNo, FirstRule, HookNo;
    assert RulesNo(b, first, n + 1) == RulesNo(b, first, n) + [RuleNo(b, n)];
  }

  lemma {:induction false} OpenGoesOn(b: Blob, hs: seq<nat>, n: nat)
    requires Filled(b, hs) && hs != [] && hs[|hs| - 1] < n
    ensures ChainsOpen(b, hs, n)[|hs| - 1] == OpenChain(b, hs[|hs| - 1], n)
    ensures ChainsOpen(b, hs, n + 1) == ChainsOpen(b, hs, n)[|hs| - 1 := OpenChain(b, hs[|hs| - 1], n + 1)]
  {
    hide OpenChain, WholeChain;
  }

  lemma {:induction false} OpenCloses(b: Blob, hs: seq<nat>, n: nat)
    requires Filled(b, hs) && hs != [] && hs[|hs| - 1] < n && FirstRule(b, hs[|hs| - 1]) < n
    ensures ChainsOpen(b, hs, n)[|hs| - 1] == OpenChain(b, hs[|hs| - 1], n)
    ensures ChainsWhole(b, hs, n) == ChainsOpen(b, hs, n)[|hs| - 1 := WholeChain(b, hs[|hs| - 1], n)]
  {
    hide OpenChain, WholeChain, FirstRule;
  }

  lemma {:induction false} WholeAndOne(b: Blob, hs: seq<nat>, n: nat)
    requires Filled(b, hs) && (hs != [] ==> FirstRule(b, hs[|hs| - 1]) < n)
    ensures Filled(b, hs + [n])
    ensures ChainsOpen(b, hs + [n], n + 1) == ChainsWhole(b, hs, n) + [OpenChain(b, n, n + 1)]
  {
    hide OpenChain, WholeChain, FirstRule;
    var hs' := hs + [n];
    forall k | 0 <= k < |hs'| - 1 ensures FirstRule(b, hs'[k]) < hs'[k + 1] {
      assert hs'[k] == hs[k];
    }
  }

  lemma {:induction false} PolicyIs(b: Blob, n: nat)
    ensures RuleNo(b, n).entry == EntryNo(b, n) && RuleNo(b, n).offset == OffsetNo(b, n)
  {
    hide EntryNo, OffsetNo;
  }

  /** The last rule read is the policy of the chain that is open. */
  lemma {:induction false} ChainCloses(b: Blob, i: nat, n: nat, p: P.State, q: P.State)
    requires i < n && p.num == n && p.cur.Some? && p.cur.value < |p.chains|
    requires p.chains[p.cur.value] == OpenChain(b, i, n) && P.DelPolicy(p) == P.Go(q)
    ensures FirstRule(b, i) < n
    ensures q == p.(chains := p.chains[p.cur.value := WholeChain(b, i, n)])
  {
    var first := FirstRule(b, i);
    var rules := RulesNo(b, first, n);
    hide FirstRule;
    assert rules != [] && rules[|rules| - 1] == RuleNo(b, n - 1);
    PolicyIs(b, n - 1);
    hide RuleNo;
    assert rules[..|rules| - 1] == RulesNo(b, first, n - 1);
  }

  lemma {:induction false} LastCloses(b: Blob, hs: seq<nat>, n: nat, cs: seq<ChainHead>, cur: nat)
    requires Filled(b, hs) && hs != [] && hs[|hs| - 1] < n && FirstRule(b, hs[|hs| - 1]) < n
    requires multiset(cs) == multiset(ChainsOpen(b, hs, n)) && cur < |cs| && cs[cur] == OpenChain(b, hs[|hs| - 1], n)
    ensures multiset(cs[cur := WholeChain(b, hs[|hs| - 1], n)]) == multiset(ChainsWhole(b, hs, n))
  {
    hide *;
    OpenCloses(b, hs, n);
    SwapOne(cs, ChainsOpen(b, hs, n), cur, |hs| - 1, WholeChain(b, hs[|hs| - 1], n));
  }

  lemma {:induction false} AllClose(b: Blob, n: nat, p: P.State, q: P.State)
    requires Reads(b, n, p) && P.DelPolicy(p) == P.Go(q)
    ensures var hs := Begins(b, n);
      && (hs != [] ==> FirstRule(b, hs[|hs| - 1]) < n) && Filled(b, hs)
      && q.num == n && multiset(q.chains) == multiset(ChainsWhole(b, hs, n))
  {
    var hs := Begins(b, n);
    hide OpenChain, WholeChain, FirstRule, ChainsOpen, ChainsWhole, Begins, Filled, P.DelPolicy;
    if hs != [] {
      ChainCloses(b, hs[|hs| - 1], n, p, q);
      LastCloses(b, hs, n, p.chains, p.cur.value);
    } else {
      NoneCloses(b, n, p, q);
    }
  }

  lemma {:induction false} NoneCloses(b: Blob, n: nat, p: P.State, q: P.State)
    requires p.cur == None && P.DelPolicy(p) == P.Go(q)
    ensures q == p && ChainsOpen(b, [], n) == ChainsWhole(b, [], n) == []
  {
  }

  lemma {:induction false} StandsAt<T>(s: seq<T>, at: nat, x: T)
    requires at <= |s|
    ensures at < |InsertAt(s, at, x)| && InsertAt(s, at, x)[at] == x
  {
  }

  /** What it is to have read so far. */
  lemma {:induction false} ReadsIs(b: Blob, n: nat, p: P.State)
    ensures Reads(b, n, p) <==>
      var hs := Begins(b, n);
      && p.num == n && Filled(b, hs)
      && multiset(p.chains) == multiset(ChainsOpen(b, hs, n))
      && (if hs == [] then p.cur == None
          else p.cur.Some? && p.cur.value < |p.chains| && p.chains[p.cur.value] == OpenChain(b, hs[|hs| - 1], n))
  {
    hide Begins, Filled, ChainsOpen, OpenChain;
  }

  /** A chain has been put in, and nothing else has changed. */
  lemma {:induction false} ChainAdded(b: Blob, n: nat, p: P.State, c: ChainHead, off: nat, q: P.State)
    requires Reads(b, n, p) && P.AddChain(p, c, off) == P.Go(q)
    ensures var hs, c' := Begins(b, n), c.(headOffset := off, index := n);
      && (hs != [] ==> FirstRule(b, hs[|hs| - 1]) < n) && Filled(b, hs)
      && q.num == n && multiset(q.chains) == multiset(ChainsWhole(b, hs, n)) + multiset{c'}
      && q.cur.Some? && q.cur.value < |q.chains| && q.chains[q.cur.value] == c'
  {
    var d := P.DelPolicy(p).state;
    AllClose(b, n, p, d);
    var at := PlaceRead(p, c, off, q, d);
    PutIn(d.chains, at, c.(headOffset := off, index := n));
    StandsAt(d.chains, at, c.(headOffset := off, index := n));
    hide *;
  }

  /** Everything that is known of entry `n` while it is read. */
  ghost predicate EntryIs(b: Blob, n: nat, off: nat, e: Entry) {
    Snapshot.Walked(b, n) == Some(off) && off < b.size && off in b.entries && b.entries[off] == e
  }

  lemma {:induction false} EntryNoIs(b: Blob, n: nat, off: nat, e: Entry)
    requires EntryIs(b, n, off, e)
    ensures OffsetNo(b, n) == off && EntryNo(b, n) == e
    ensures Snapshot.Walked(b, n + 1) == Some(off + EntrySize(e))
    ensures IsError(b, n) <==> e.target.name == ERROR_TARGET
  {
  }

  lemma {:induction false} BeginsNext(b: Blob, n: nat, off: nat, e: Entry)
    requires EntryIs(b, n, off, e)
    ensures Begins(b, n + 1) == Begins(b, n) +
      if off + EntrySize(e) != b.size && (e.target.name == ERROR_TARGET || P.HookAt(b, off) > 0) then [n] else []
  {
    EntryNoIs(b, n, off, e);
    hide EntryIs, OffsetNo, EntryNo, P.HookAt;
  }

  /** The chain that begins with entry `n`, with that entry alone. */
  lemma {:induction false} JustBegun(b: Blob, n: nat, off: nat, e: Entry)
    requires EntryIs(b, n, off, e)
    ensures e.target.name == ERROR_TARGET ==>
      OpenChain(b, n, n + 1) == NewChain(e.target.text, 0).(headOffset := off, index := n)
    ensures e.target.name != ERROR_TARGET && P.HookAt(b, off) > 0 ==>
      OpenChain(b, n, n + 1) == NewChain(HOOK_NAMES[P.HookAt(b, off) - 1], P.HookAt(b, off)).(
        headOffset := off, index := n, rules := [RuleNo(b, n)], numRules := 1)
  {
    EntryNoIs(b, n, off, e);
    hide EntryIs, OffsetNo, EntryNo, P.HookAt, RuleNo;
  }

  /** The head of a user chain. */
  lemma {:induction false} UserChainRead(b: Blob, n: nat, off: nat, e: Entry, p: P.State, q: P.State)
    requires Reads(b, n, p) && EntryIs(b, n, off, e) && P.AddEntry(b, p, e, off) == P.Go(q)
    requires off + EntrySize(e) != b.size && e.target.name == ERROR_TARGET
    ensures Reads(b, n + 1, q)
  {
    var p', c := p.(numChains := p.numChains + 1), NewChain(e.target.text, 0);
    var d := AddsUserChain(b, p, e, off, q);
    hide *;
    ReadsIs(b, n, p);
    ReadsIs(b, n, p');
    ChainAdded(b, n, p', c, off, d);
    BeginsNext(b, n, off, e);
    JustBegun(b, n, off, e);
    WholeAndOne(b, Begins(b, n), n);
    NowReads(b, n, c.(headOffset := off, index := n), q);
  }

  lemma {:induction false} AddsUserChain(b: Blob, p: P.State, e: Entry, off: nat, q: P.State) returns (d: P.State)
    requires P.AddEntry(b, p, e, off) == P.Go(q) && off + EntrySize(e) != b.size && e.target.name == ERROR_TARGET
    ensures P.AddChain(p.(numChains := p.numChains + 1), NewChain(e.target.text, 0), off) == P.Go(d)
    ensures q == d.(num := d.num + 1, counts := d.counts + [e.counters])
  {
    hide P.AddChain;
    d := P.AddChain(p.(numChains := p.numChains + 1), NewChain(e.target.text, 0), off).state;
  }

  /** With the chain that has just begun put in, the chains are again those of the blob. */
  lemma {:induction false} NowReads(b: Blob, n: nat, c: ChainHead, q: P.State)
    requires var hs := Begins(b, n);
      && Filled(b, hs) && (hs != [] ==> FirstRule(b, hs[|hs| - 1]) < n) && Begins(b, n + 1) == hs + [n]
      && Filled(b, hs + [n])
      && ChainsOpen(b, hs + [n], n + 1) == ChainsWhole(b, hs, n) + [c] && OpenChain(b, n, n + 1) == c
      && multiset(q.chains) == multiset(ChainsWhole(b, hs, n)) + multiset{c}
    requires q.num == n + 1 && q.cur.Some? && q.cur.value < |q.chains| && q.chains[q.cur.value] == c
    ensures Reads(b, n + 1, q)
  {
    hide *;
    ReadsIs(b, n + 1, q);
    var whole := ChainsWhole(b, Begins(b, n), n);
    assert multiset(whole + [c]) == multiset(whole) + multiset{c};
  }

  /** The first rule of a builtin chain. */
  lemma {:induction false} BuiltinChainRead(b: Blob, n: nat, off: nat, e: Entry, p: P.State, q: P.State)
    requires Reads(b, n, p) && EntryIs(b, n, off, e) && P.AddEntry(b, p, e, off) == P.Go(q)
    requires off + EntrySize(e) != b.size && e.target.name != ERROR_TARGET && P.HookAt(b, off) > 0
    ensures Reads(b, n + 1, q)
  {
    var h := P.HookAt(b, off);
    var c := NewChain(HOOK_NAMES[h - 1], h);
    var c' := c.(headOffset := off, index := n);
    var c'' := c'.(rules := [RuleNo(b, n)], numRules := 1);
    var d := AddsBuiltinChain(b, p, e, off, q);
    EntryNoIs(b, n, off, e);
    hide *;
    ChainAdded(b, n, p, c, off, d);
    FirstRuleAdded(b, n, e, off, d, q, c');
    BeginsNext(b, n, off, e);
    JustBegun(b, n, off, e);
    WholeAndOne(b, Begins(b, n), n);
    Swapped(ChainsWhole(b, Begins(b, n), n), c', c'', d.chains, d.cur.value);
    NowReads(b, n, c'', q);
  }

  lemma {:induction false} AddsBuiltinChain(b: Blob, p: P.State, e: Entry, off: nat, q: P.State) returns (d: P.State)
    requires P.AddEntry(b, p, e, off) == P.Go(q) && off + EntrySize(e) != b.size && e.target.name != ERROR_TARGET
    requires P.HookAt(b, off) > 0
    ensures P.AddChain(p, NewChain(HOOK_NAMES[P.HookAt(b, off) - 1], P.HookAt(b, off)), off) == P.Go(d)
    ensures P.Counted(P.AddRule(d, e, off), e) == P.Go(q)
  {
    hide P.AddChain, P.AddRule;
    d := P.AddChain(p, NewChain(HOOK_NAMES[P.HookAt(b, off) - 1], P.HookAt(b, off)), off).state;
  }

  /** A rule added to a chain without rules. */
  lemma {:induction false} FirstRuleAdded(b: Blob, n: nat, e: Entry, off: nat, d: P.State, q: P.State, c: ChainHead)
    requires OffsetNo(b, n) == off && EntryNo(b, n) == e && P.Counted(P.AddRule(d, e, off), e) == P.Go(q)
    requires d.num == n && d.cur.Some? && d.cur.value < |d.chains| && d.chains[d.cur.value] == c
    requires c.rules == [] && c.numRules == 0
    ensures q.num == n + 1 && q.cur == d.cur
    ensures q.chains == d.chains[d.cur.value := c.(rules := [RuleNo(b, n)], numRules := 1)]
  {
    hide OffsetNo, EntryNo;
    assert [] + [RuleNo(b, n)] == [RuleNo(b, n)];
  }

  lemma {:induction false} Swapped<T>(s: seq<T>, x: T, y: T, t: seq<T>, i: nat)
    requires multiset(t) == multiset(s) + multiset{x} && i < |t| && t[i] == x
    ensures multiset(t[i := y]) == multiset(s) + multiset{y}
  {
    var u := s + [x];
    SwapOne(t, u, i, |s|, y);
    assert u[|s| := y] == s + [y];
  }

  /** Any other rule. */
  lemma {:induction false} RuleRead(b: Blob, n: nat, off: nat, e: Entry, p: P.State, q: P.State)
    requires Reads(b, n, p) && EntryIs(b, n, off, e) && P.AddEntry(b, p, e, off) == P.Go(q)
    requires off + EntrySize(e) != b.size && e.target.name != ERROR_TARGET && P.HookAt(b, off) == 0
    ensures Reads(b, n + 1, q)
  {
    var hs := Begins(b, n);
    assert P.Counted(P.AddRule(p, e, off), e) == P.Go(q) by { hide P.AddRule, P.HookAt, Reads, EntryIs; }
    EntryNoIs(b, n, off, e);
    BeginsNext(b, n, off, e);
    hide *;
    SomeOpen(b, n, e, off, p, q);
    assert Begins(b, n + 1) == hs;
    var i := hs[|hs| - 1];
    ReadsIs(b, n, p);
    NextRuleAdded(b, i, n, e, off, p, q);
    OpenReads(b, n, p, q);
  }

  lemma {:induction false} SomeOpen(b: Blob, n: nat, e: Entry, off: nat, p: P.State, q: P.State)
    requires Reads(b, n, p) && P.Counted(P.AddRule(p, e, off), e) == P.Go(q)
    ensures Begins(b, n) != []
  {
    hide Begins, Filled, ChainsOpen, OpenChain, P.KindOf;
  }

  lemma {:induction false} NextRuleAdded(b: Blob, i: nat, n: nat, e: Entry, off: nat, p: P.State, q: P.State)
    requires OffsetNo(b, n) == off && EntryNo(b, n) == e && P.Counted(P.AddRule(p, e, off), e) == P.Go(q)
    requires i < n == p.num && p.cur.Some? && p.cur.value < |p.chains| && p.chains[p.cur.value] == OpenChain(b, i, n)
    ensures q.num == n + 1 && q.cur == p.cur && q.chains == p.chains[p.cur.value := OpenChain(b, i, n + 1)]
  {
    OneMoreRule(b, i, n);
    hide OffsetNo, EntryNo, OpenChain;
  }

  lemma {:induction false} OpenReads(b: Blob, n: nat, p: P.State, q: P.State)
    requires Reads(b, n, p) && Begins(b, n) != [] && Begins(b, n + 1) == Begins(b, n)
    requires var i := Begins(b, n)[|Begins(b, n)| - 1];
      q.num == n + 1 && q.cur == p.cur && q.chains == p.chains[p.cur.value := OpenChain(b, i, n + 1)]
    ensures Reads(b, n + 1, q)
  {
    hide *;
    ReadsIs(b, n, p);
    ReadsIs(b, n + 1, q);
    var hs := Begins(b, n);
    OpenGoesOn(b, hs, n);
    SwapOne(p.chains, ChainsOpen(b, hs, n), p.cur.value, |hs| - 1, OpenChain(b, hs[|hs| - 1], n + 1));
  }

  // --------------------------------------------------------------------------------- the whole pass

  /** All chains have been read to their ends. */
  ghost predicate HasRead(b: Blob, n: nat, p: P.State) {
    var hs := Begins(b, n);
    && Filled(b, hs) && (hs != [] ==> FirstRule(b, hs[|hs| - 1]) < n)
    && multiset(p.chains) == multiset(ChainsWhole(b, hs, n))
  }

  lemma {:induction false} HasReadIs(b: Blob, n: nat, p: P.State)
    ensures HasRead(b, n, p) <==>
      var hs := Begins(b, n);
      && Filled(b, hs) && (hs != [] ==> FirstRule(b, hs[|hs| - 1]) < n)
      && multiset(p.chains) == multiset(ChainsWhole(b, hs, n))
  {
    hide Begins, Filled, ChainsWhole, FirstRule;
  }

  lemma {:induction false} LastRead(b: Blob, n: nat, off: nat, e: Entry, p: P.State, q: P.State)
    requires Reads(b, n, p) && EntryIs(b, n, off, e) && P.AddEntry(b, p, e, off) == P.Go(q)
    requires off + EntrySize(e) == b.size
    ensures HasRead(b, n, q)
  {
    var d := P.DelPolicy(p).state;
    assert P.DelPolicy(p) == P.Go(d) && q.chains == d.chains by { hide P.DelPolicy, EntryIs, Reads; }
    AllClose(b, n, p, d);
    HasReadIs(b, n, q);
    hide *;
  }

  lemma {:induction false} EntryReads(b: Blob, n: nat, off: nat, e: Entry, p: P.State, q: P.State)
    requires Reads(b, n, p) && EntryIs(b, n, off, e) && P.AddEntry(b, p, e, off) == P.Go(q)
    requires off + EntrySize(e) != b.size
    ensures Reads(b, n + 1, q)
  {
    hide *;
    if e.target.name == ERROR_TARGET {
      UserChainRead(b, n, off, e, p, q);
    } else if P.HookAt(b, off) > 0 {
      BuiltinChainRead(b, n, off, e, p, q);
    } else {
      RuleRead(b, n, off, e, p, q);
    }
  }

  /** Entries are walked one after the other. */
  lemma {:induction false} WalkedBefore(b: Blob, n: nat, m: nat)
    requires n < m && Snapshot.Walked(b, m).Some?
    ensures Snapshot.Walked(b, n).Some?
    ensures var off := OffsetNo(b, n);
      && off < b.size && off in b.entries && EntryIs(b, n, off, b.entries[off])
      && off + EntrySize(b.entries[off]) <= OffsetNo(b, m)
    ensures n + 1 < m ==> OffsetNo(b, n) + EntrySize(b.entries[OffsetNo(b, n)]) < OffsetNo(b, m)
  {
    if n + 1 < m {
      WalkedBefore(b, n, m - 1);
    }
  }

  lemma {:induction false} ReadsOne(b: Blob, p: P.State, off: nat, q: P.State) returns (r: P.State)
    requires off < b.size && off in b.entries && P.ReadFrom(b, p, off) == P.Go(q)
    ensures P.AddEntry(b, p, b.entries[off], off) == P.Go(r)
    ensures P.ReadFrom(b, r, off + EntrySize(b.entries[off])) == P.Go(q)
  {
    hide P.AddEntry;
    r := P.AddEntry(b, p, b.entries[off], off).state;
  }

  lemma {:induction false} ReadsNone(b: Blob, p: P.State)
    ensures P.ReadFrom(b, p, b.size) == P.Go(p)
  {
  }

  /** The pass from entry `n` on. */
  lemma {:induction false} ReadsOn(b: Blob, n: nat, p: P.State, m: nat, q: P.State)
    requires Reads(b, n, p) && n < m && Snapshot.Walked(b, m) == Some(b.size)
    requires P.ReadFrom(b, p, OffsetNo(b, n)) == P.Go(q)
    ensures HasRead(b, m - 1, q)
    decreases m - n
  {
    hide *;
    WalkedBefore(b, n, m);
    var off := OffsetNo(b, n);
    var e := b.entries[off];
    var r := ReadsOne(b, p, off, q);
    EntryNoIs(b, n, off, e);
    NextOffset(b, n, off, e);
    OffsetLast(b, m);
    if n + 1 == m {
      LastRead(b, n, off, e, p, r);
      ReadsNone(b, r);
    } else {
      EntryReads(b, n, off, e, p, r);
      ReadsOn(b, n + 1, r, m, q);
    }
  }

  lemma {:induction false} OffsetLast(b: Blob, m: nat)
    requires Snapshot.Walked(b, m) == Some(b.size)
    ensures OffsetNo(b, m) == b.size
  {
  }

  lemma {:induction false} NextOffset(b: Blob, n: nat, off: nat, e: Entry)
    requires Snapshot.Walked(b, n + 1) == Some(off + EntrySize(e))
    ensures OffsetNo(b, n + 1) == off + EntrySize(e)
  {
  }

  lemma {:induction false} NothingRead(b: Blob)
    ensures Reads(b, 0, P.START) && OffsetNo(b, 0) == 0
  {
    assert ChainsOpen(b, [], 0) == [];
  }

  /** Every blob whose `n` entries lie one behind the other is read into its own chains, each with its own rules and its
      own policy, in whatever order they are put; the last entry is no chain's. */
  lemma {:induction false} NothingIsLost(b: Blob, n: nat, q: P.State)
    requires n > 0 && Snapshot.Walked(b, n) == Some(b.size) && P.ReadFrom(b, P.START, 0) == P.Go(q)
    ensures var hs := Begins(b, n - 1);
      && Filled(b, hs) && (hs != [] ==> FirstRule(b, hs[|hs| - 1]) < n - 1)
      && multiset(q.chains) == multiset(ChainsWhole(b, hs, n - 1))
  {
    NothingRead(b);
    hide *;
    ReadsOn(b, 0, P.START, n, q);
    HasReadIs(b, n - 1, q);
  }

  // ---------------------------------------------------------------------------------------- in order

  /** The chains that begin at these entries have different names, and the builtin ones come first. */
  predicate Sortable(b: Blob, hs: seq<nat>) {
    forall j, k :: 0 <= j < k < |hs| ==>
      NameNo(b, hs[j]) != NameNo(b, hs[k]) && (HookNo(b, hs[k]) > 0 ==> HookNo(b, hs[j]) > 0)
  }

  lemma {:induction false} BeginsGrows(b: Blob, n: nat, m: nat)
    requires n <= m
    ensures Begins(b, n) <= Begins(b, m)
  {
    if n < m {
      BeginsGrows(b, n, m - 1);
    }
  }

  lemma {:induction false} StillSortable(b: Blob, hs: seq<nat>, hs': seq<nat>)
    requires hs <= hs' && Sortable(b, hs')
    ensures Sortable(b, hs)
  {
    hide NameNo, HookNo;
    assert forall k :: 0 <= k < |hs| ==> hs[k] == hs'[k];
  }

  /** The names and hooks of the chains read so far are those of the entries that begin one. */
  lemma {:induction false} TitlesRead(b: Blob, n: nat, p: P.State, k: nat) returns (j: nat)
    requires Reads(b, n, p) && k < |p.chains|
    ensures j < |Begins(b, n)|
    ensures p.chains[k].name == NameNo(b, Begins(b, n)[j]) && p.chains[k].hook == HookNo(b, Begins(b, n)[j])
  {
    hide *;
    ReadsIs(b, n, p);
    var hs := Begins(b, n);
    j := Among(p.chains, ChainsOpen(b, hs, n), k);
    OpenTitle(b, hs, n, j);
  }

  lemma {:induction false} Among<T>(s: seq<T>, t: seq<T>, k: nat) returns (j: nat)
    requires multiset(s) == multiset(t) && k < |s|
    ensures j < |t| && t[j] == s[k]
  {
    assert s[k] in multiset(s);
    assert s[k] in t;
    j :| 0 <= j < |t| && t[j] == s[k];
  }

  lemma {:induction false} OpenTitle(b: Blob, hs: seq<nat>, n: nat, j: nat)
    requires Filled(b, hs) && hs != [] && hs[|hs| - 1] < n && j < |hs|
    ensures ChainsOpen(b, hs, n)[j].name == NameNo(b, hs[j]) && ChainsOpen(b, hs, n)[j].hook == HookNo(b, hs[j])
  {
    if j < |hs| - 1 {
      assert FirstRule(b, hs[j]) < hs[j + 1];
      WholeTitle(b, hs[j], hs[j + 1]);
    } else {
      OpenedTitle(b, hs[j], n);
    }
    hide *;
    OpenElement(b, hs, n, j);
  }

  lemma {:induction false} OpenElement(b: Blob, hs: seq<nat>, n: nat, j: nat)
    requires Filled(b, hs) && hs != [] && hs[|hs| - 1] < n && j < |hs|
    requires j < |hs| - 1 ==> FirstRule(b, hs[j]) < hs[j + 1]
    ensures ChainsOpen(b, hs, n)[j] ==
      if j < |hs| - 1 then WholeChain(b, hs[j], hs[j + 1]) else OpenChain(b, hs[j], n)
  {
    hide WholeChain, OpenChain, FirstRule;
  }

  lemma {:induction false} WholeTitle(b: Blob, i: nat, n: nat)
    requires FirstRule(b, i) < n
    ensures WholeChain(b, i, n).name == NameNo(b, i) && WholeChain(b, i, n).hook == HookNo(b, i)
  {
    hide NameNo, HookNo, RulesNo, EntryNo, OffsetNo;
  }

  lemma {:induction false} OpenedTitle(b: Blob, i: nat, n: nat)
    requires i < n
    ensures OpenChain(b, i, n).name == NameNo(b, i) && OpenChain(b, i, n).hook == HookNo(b, i)
  {
    hide NameNo, HookNo, RulesNo, OffsetNo;
  }

  /** A chain that begins now is not named like any before, and is not a builtin one behind a user chain. */
  lemma {:induction false} NewTitle(b: Blob, n: nat, p: P.State)
    requires Reads(b, n, p) && Begins(b, n + 1) == Begins(b, n) + [n] && Sortable(b, Begins(b, n + 1))
    ensures forall k :: 0 <= k < |p.chains| ==> p.chains[k].name != NameNo(b, n)
    ensures HookNo(b, n) > 0 ==> forall k :: 0 <= k < |p.chains| ==> p.chains[k].hook > 0
  {
    var hs := Begins(b, n + 1);
    hide Reads, NameNo, HookNo, Begins;
    forall k | 0 <= k < |p.chains|
      ensures p.chains[k].name != NameNo(b, n) && (HookNo(b, n) > 0 ==> p.chains[k].hook > 0)
    {
      var j := TitlesRead(b, n, p, k);
      assert hs[j] == Begins(b, n)[j] && hs[|hs| - 1] == n;
    }
  }

  lemma {:induction false} TitleIs(b: Blob, n: nat, off: nat, e: Entry)
    requires EntryIs(b, n, off, e)
    ensures e.target.name == ERROR_TARGET ==> NameNo(b, n) == e.target.text && HookNo(b, n) == 0
    ensures e.target.name != ERROR_TARGET ==> HookNo(b, n) == P.HookAt(b, off)
    ensures e.target.name != ERROR_TARGET && P.HookAt(b, off) > 0 ==> NameNo(b, n) == HOOK_NAMES[P.HookAt(b, off) - 1]
  {
    EntryNoIs(b, n, off, e);
    hide EntryIs, OffsetNo, EntryNo, P.HookFrom;
  }

  lemma {:induction false} RuleKeepsTitles(d: P.State, e: Entry, off: nat, q: P.State)
    requires P.Counted(P.AddRule(d, e, off), e) == P.Go(q) && Ordered(Abs(d.chains))
    ensures Ordered(Abs(q.chains))
  {
    hide P.KindOf, Abs, Ordered;
    OrderBy(d.chains, q.chains);
  }

  lemma {:induction false} CountingKeepsChains(p: P.State, e: Entry, off: nat, q: P.State, b: Blob)
    requires P.AddEntry(b, p, e, off) == P.Go(q)
    ensures off + EntrySize(e) == b.size ==> P.DelPolicy(p).Go? && q.chains == P.DelPolicy(p).state.chains
    ensures off + EntrySize(e) != b.size && e.target.name != ERROR_TARGET && P.HookAt(b, off) == 0 ==>
      P.Counted(P.AddRule(p, e, off), e) == P.Go(q)
  {
    hide P.DelPolicy, P.AddRule, P.AddChain, P.HookAt;
  }

  /** One entry keeps the chains in order. */
  lemma {:induction false} EntryKeepsOrder(b: Blob, n: nat, off: nat, e: Entry, p: P.State, q: P.State)
    requires Reads(b, n, p) && EntryIs(b, n, off, e) && P.AddEntry(b, p, e, off) == P.Go(q)
    requires Ordered(Abs(p.chains)) && Sortable(b, Begins(b, n + 1))
    ensures Ordered(Abs(q.chains))
  {
    hide *;
    BeginsNext(b, n, off, e);
    TitleIs(b, n, off, e);
    CountingKeepsChains(p, e, off, q, b);
    if off + EntrySize(e) == b.size {
      PolicyKeeps(p, P.DelPolicy(p).state);
      OrderBy(p.chains, q.chains);
    } else if e.target.name == ERROR_TARGET {
      NewTitle(b, n, p);
      var d := AddsUserChain(b, p, e, off, q);
      Titled(e.target.text, 0);
      AddingKeepsOrder(p.(numChains := p.numChains + 1), NewChain(e.target.text, 0), off, d);
    } else if P.HookAt(b, off) > 0 {
      NewTitle(b, n, p);
      var d := AddsBuiltinChain(b, p, e, off, q);
      Titled(NameNo(b, n), HookNo(b, n));
      AddingKeepsOrder(p, NewChain(NameNo(b, n), HookNo(b, n)), off, d);
      RuleKeepsTitles(d, e, off, q);
    } else {
      RuleKeepsTitles(p, e, off, q);
    }
  }

  lemma {:induction false} Titled(name: Name, hook: nat)
    ensures NewChain(name, hook).name == name && NewChain(name, hook).hook == hook
  {
  }

  lemma {:induction false} OrderedOn(b: Blob, n: nat, p: P.State, m: nat, q: P.State)
    requires Reads(b, n, p) && n < m && Snapshot.Walked(b, m) == Some(b.size)
    requires P.ReadFrom(b, p, OffsetNo(b, n)) == P.Go(q)
    requires Ordered(Abs(p.chains)) && Sortable(b, Begins(b, m))
    ensures Ordered(Abs(q.chains))
    decreases m - n
  {
    hide *;
    WalkedBefore(b, n, m);
    var off := OffsetNo(b, n);
    var e := b.entries[off];
    var r := ReadsOne(b, p, off, q);
    EntryNoIs(b, n, off, e);
    NextOffset(b, n, off, e);
    OffsetLast(b, m);
    BeginsGrows(b, n + 1, m);
    StillSortable(b, Begins(b, n + 1), Begins(b, m));
    EntryKeepsOrder(b, n, off, e, p, r);
    if n + 1 == m {
      ReadsNone(b, r);
    } else {
      EntryReads(b, n, off, e, p, r);
      OrderedOn(b, n + 1, r, m, q);
    }
  }

  /** A table whose chains have different names and whose builtin chains come first is read into chains in order: the
      builtin ones as they come, and the user chains sorted, in whatever order they come. */
  lemma {:induction false} ReadInOrder(b: Blob, n: nat, q: P.State)
    requires n > 0 && Snapshot.Walked(b, n) == Some(b.size) && P.ReadFrom(b, P.START, 0) == P.Go(q)
    requires Sortable(b, Begins(b, n))
    ensures Ordered(Abs(q.chains))
  {
    NothingRead(b);
    assert Ordered(Abs(P.START.chains));
    hide *;
    OrderedOn(b, 0, P.START, n, q);
  }

  // ------------------------------------------------------------------------------------ second pass

  lemma {:induction false} OffsetsGrow(b: Blob, n: nat, m: nat)
    requires n < m && Snapshot.Walked(b, m).Some?
    ensures OffsetNo(b, n) < OffsetNo(b, m)
  {
    WalkedBefore(b, n, m);
  }

  /** Two chains of a blob have no byte in common. */
  lemma {:induction false} ChainsApart(b: Blob, hs: seq<nat>, n: nat, j: nat, k: nat)
    requires Filled(b, hs) && hs != [] && FirstRule(b, hs[|hs| - 1]) < n && Snapshot.Walked(b, n).Some?
    requires forall i :: 0 <= i < |hs| - 1 ==> hs[i] < hs[i + 1]
    requires j < k < |hs|
    ensures hs[k] < n
    ensures ChainsWhole(b, hs, n)[j].footOffset < ChainsWhole(b, hs, n)[k].headOffset
  {
    hide *;
    Rising(hs, j + 1, k);
    Rising(hs, k, |hs| - 1);
    WholeAt(b, hs, n, j);
    WholeAt(b, hs, n, k);
    WalkedBefore(b, hs[k], n);
    OffsetsGrow(b, hs[j + 1] - 1, hs[k]);
  }

  lemma {:induction false} WholeAt(b: Blob, hs: seq<nat>, n: nat, k: nat)
    requires Filled(b, hs) && hs != [] && FirstRule(b, hs[|hs| - 1]) < n && k < |hs|
    ensures hs[|hs| - 1] < n && (k < |hs| - 1 ==> 0 < hs[k + 1])
    ensures ChainsWhole(b, hs, n)[k].headOffset == OffsetNo(b, hs[k])
    ensures ChainsWhole(b, hs, n)[k].footOffset == OffsetNo(b, (if k < |hs| - 1 then hs[k + 1] else n) - 1)
  {
    FirstBehind(b, hs[|hs| - 1]);
    var m := if k < |hs| - 1 then hs[k + 1] else n;
    assert FirstRule(b, hs[k]) < m;
    hide *;
    FirstBehind(b, hs[k]);
    WholeEnds(b, hs[k], m);
    WholeElement(b, hs, n, k, m);
  }

  lemma {:induction false} WholeElement(b: Blob, hs: seq<nat>, n: nat, k: nat, m: nat)
    requires Filled(b, hs) && hs != [] && FirstRule(b, hs[|hs| - 1]) < n && k < |hs|
    requires FirstRule(b, hs[k]) < m && m == if k < |hs| - 1 then hs[k + 1] else n
    ensures ChainsWhole(b, hs, n)[k] == WholeChain(b, hs[k], m)
  {
    hide WholeChain, FirstRule;
  }

  lemma {:induction false} FirstBehind(b: Blob, i: nat)
    ensures i <= FirstRule(b, i)
  {
    hide HookNo;
  }

  lemma {:induction false} WholeEnds(b: Blob, i: nat, n: nat)
    requires FirstRule(b, i) < n
    ensures WholeChain(b, i, n).headOffset == OffsetNo(b, i) && WholeChain(b, i, n).footOffset == OffsetNo(b, n - 1)
  {
    hide NameNo, HookNo, RulesNo, EntryNo, OffsetNo;
  }

  lemma {:induction false} Rising(hs: seq<nat>, j: nat, k: nat)
    requires j <= k < |hs| && forall i :: 0 <= i < |hs| - 1 ==> hs[i] < hs[i + 1]
    ensures hs[j] <= hs[k]
  {
    if j < k {
      Rising(hs, j, k - 1);
    }
  }

  lemma {:induction false} BeginsRises(b: Blob, n: nat)
    ensures forall i :: 0 <= i < |Begins(b, n)| - 1 ==> Begins(b, n)[i] < Begins(b, n)[i + 1]
  {
    if n > 0 {
      BeginsRises(b, n - 1);
    }
  }

  /** Wherever the chains have been put, a jump is resolved to the chain in whose bytes it leads. */
  lemma {:induction false} JumpsFollow(b: Blob, n: nat, q: P.State, i: nat, v: int)
    requires n > 0 && Snapshot.Walked(b, n) == Some(b.size) && P.ReadFrom(b, P.START, 0) == P.Go(q)
    requires i < |q.chains| && q.chains[i].headOffset <= v <= q.chains[i].footOffset
    ensures P.ChainAt(q.chains, v).Some? && q.chains[P.ChainAt(q.chains, v).value] == q.chains[i]
  {
    hide *;
    NothingIsLost(b, n, q);
    BeginsRises(b, n - 1);
    WalkedBefore(b, n - 1, n);
    var hs := Begins(b, n - 1);
    var cs := ChainsWhole(b, hs, n - 1);
    assert P.ChainAt(q.chains, v).Some?;
    var at := P.ChainAt(q.chains, v).value;
    var x := Among(q.chains, cs, at);
    var y := Among(q.chains, cs, i);
    if x < y {
      ChainsApart(b, hs, n - 1, x, y);
    } else if y < x {
      ChainsApart(b, hs, n - 1, y, x);
    }
  }

  /** The table as it is parsed is in order, too: the second pass changes no name and no hook. */
  lemma {:induction false} ParsedInOrder(b: Blob, n: nat)
    requires n > 0 && Snapshot.Walked(b, n) == Some(b.size) && P.ReadFrom(b, P.START, 0).Go?
    requires Sortable(b, Begins(b, n)) && P.ParseOf(b).Parsed?
    ensures Ordered(Abs(P.ParseOf(b).chains))
  {
    var q := P.ReadFrom(b, P.START, 0).state;
    ReadInOrder(b, n, q);
    hide P.ReadFrom, Begins, Sortable, Ordered, Abs, P.HasLost;
    OrderBy(q.chains, P.Resolved(q.chains));
  }

  // ------------------------------------------------------------------------------ what entries mean

  /** The kind that an entry is given is what the kernel does with a packet that matches it: a verdict ends the walk or
      returns, a fallthrough goes on to the next entry, a jump goes elsewhere and comes back behind the entry, and
      everything else is up to the extension of that name. */
  lemma {:induction false} KindTells(b: Blob, o: Oracle, t: nat, off: nat, back: seq<nat>, trail: seq<nat>)
    requires off in b.entries && o.matches(t, b.entries[off].ip, b.entries[off].matches)
    ensures var e := b.entries[off];
      var s, next, v := BlobStep(b, o, t, At(off, back, trail)), off + EntrySize(e), e.target.verdict;
      match P.KindOf(e, off)
      case Some(Standard) => s == if v == -5 then Return(back, trail + [off]) else Ended(v, trail + [off])
      case Some(Fallthrough) => s == At(next, back, trail + [off])
      case Some(Jump(_)) => v >= 0 && v != next && s == At(v, [next] + back, trail + [off])
      case Some(Module) => e.target.name != ""
      case None => e.target.name == "" && 32 + |e.target.data| != 40
  {
  }

  /** The counters are kept in the order of the entries. */
  lemma {:induction false} CountsGrow(b: Blob, p: P.State, e: Entry, off: nat, q: P.State)
    requires P.AddEntry(b, p, e, off) == P.Go(q)
    ensures q.counts == p.counts + [e.counters]
    ensures q.numChains ==
      p.numChains + if off + EntrySize(e) != b.size && e.target.name == ERROR_TARGET then 1 else 0
  {
    hide P.HookAt, P.KindOf, Place;
  }

  predicate CountsRead(b: Blob, n: nat, counts: seq<Counters>) {
    |counts| == n && forall i :: 0 <= i < n ==> counts[i] == EntryNo(b, i).counters
  }

  lemma {:induction false} CountsOne(b: Blob, n: nat, counts: seq<Counters>, e: Entry)
    requires CountsRead(b, n, counts) && EntryNo(b, n) == e
    ensures CountsRead(b, n + 1, counts + [e.counters])
  {
    hide EntryNo;
  }

  lemma {:induction false} CountsOn(b: Blob, n: nat, p: P.State, m: nat, q: P.State)
    requires CountsRead(b, n, p.counts) && n < m && Snapshot.Walked(b, m) == Some(b.size)
    requires P.ReadFrom(b, p, OffsetNo(b, n)) == P.Go(q)
    ensures CountsRead(b, m, q.counts)
    decreases m - n
  {
    hide *;
    WalkedBefore(b, n, m);
    var off := OffsetNo(b, n);
    var e := b.entries[off];
    var r := ReadsOne(b, p, off, q);
    EntryNoIs(b, n, off, e);
    NextOffset(b, n, off, e);
    OffsetLast(b, m);
    CountsGrow(b, p, e, off, r);
    CountsOne(b, n, p.counts, e);
    if n + 1 == m {
      ReadsNone(b, r);
    } else {
      CountsOn(b, n + 1, r, m, q);
    }
  }

  /** The counters handed out with the chains are those of all entries, in their order. */
  lemma {:induction false} CountsInOrder(b: Blob, n: nat, q: P.State)
    requires n > 0 && Snapshot.Walked(b, n) == Some(b.size) && P.ReadFrom(b, P.START, 0) == P.Go(q)
    ensures |q.counts| == n && forall i :: 0 <= i < n ==> q.counts[i] == EntryNo(b, i).counters
  {
    NothingRead(b);
    CountsOn(b, 0, P.START, n, q);
    hide P.ReadFrom;
  }
}
