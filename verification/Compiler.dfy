/** Compiling the cached chains into the kernel's blob, in two passes: one fixes the offsets, the other fills
    in jump targets and copies every entry to its offset. */
module Compiler {
  import opened Names
  import opened Seqs
  import opened Rulesets
  import opened Editing
  import opened Cache
  import opened HandleFacts
  import opened Handles
  import opened Layout

  /** The kernel's form of a table: entries by offset, total size, and per hook the offsets of the first
      entry and of the policy of its builtin chain. */
  datatype Blob = Blob(entries: map<nat, Entry>, size: nat, hooks: map<nat, nat>, underflows: map<nat, nat>)

  // ----------------------------------------------------------------------------------- first pass

  /** Chain `c'` is chain `c` with head and first `n` rules placed from `off` and `num` on. */
  ghost predicate Placing(c: ChainHead, c': ChainHead, off: nat, num: nat, n: nat) {
    && n <= |c.rules| == |c'.rules|
    && c' == c.(headOffset := off, rules := c'.rules)
    && (forall i {:trigger c'.rules[i]} :: 0 <= i < n ==> c'.rules[i] == c.rules[i].(
         offset := off + HeadSize(c) + SizeUpTo(c.rules, i), index := num + HeadCount(c) + i))
    && (forall i :: n <= i < |c.rules| ==> c'.rules[i] == c.rules[i])
  }

  lemma {:induction false} PlacingDone(c: ChainHead, c': ChainHead, c'': ChainHead, off: nat, num: nat)
    requires Placing(c, c', off, num, |c.rules|)
    requires c'' == c'.(footOffset := off + HeadSize(c) + SizeUpTo(c.rules, |c.rules|),
                        footIndex := num + HeadCount(c) + |c.rules|)
    ensures SameHead(c, c'') && ChainPlaced(c'', off, num)
    ensures ChainSize(c'') == ChainSize(c) && ChainCount(c'') == ChainCount(c)
  {
    forall i | 0 <= i < |c.rules| ensures SameRule(c.rules[i], c''.rules[i]) {
    }
    PlacingKeepsSizes(c.rules, c''.rules);
  }

  /** Assigns offsets and indices to one chain. */
  method CompileChainOffsets(c: ChainHead, offset: nat, num: nat)
    returns (c': ChainHead, offset': nat, num': nat)
    ensures SameHead(c, c') && ChainPlaced(c', offset, num)
    ensures offset' == offset + ChainSize(c') && num' == num + ChainCount(c')
  {
    c' := c.(headOffset := offset);
    offset', num' := offset, num;
    if c.hook == 0 {
      offset' := offset' + HEAD_SIZE;
      num' := num' + 1;
    }
    var i := 0;
    while i < |c'.rules|
      invariant Placing(c, c', offset, num, i)
      invariant offset' == offset + HeadSize(c) + SizeUpTo(c.rules, i)
      invariant num' == num + HeadCount(c) + i
    {
      c' := c'.(rules := c'.rules[i := c'.rules[i].(offset := offset', index := num')]);
      offset' := offset' + c'.rules[i].size;
      num' := num' + 1;
      i := i + 1;
    }
    ghost var placed := c';
    c' := c'.(footOffset := offset', footIndex := num');
    offset' := offset' + FOOT_SIZE;
    num' := num' + 1;
    PlacingDone(c, placed, c', offset, num);
  }

  lemma {:induction false} PlacingKeepsSizes(rules: seq<RuleHead>, rules': seq<RuleHead>)
    requires |rules'| == |rules| && forall i :: 0 <= i < |rules| ==> SameRule(rules[i], rules'[i])
    ensures forall i :: 0 <= i <= |rules| ==> SizeUpTo(rules', i) == SizeUpTo(rules, i)
  {
    forall i | 0 <= i <= |rules| ensures SizeUpTo(rules', i) == SizeUpTo(rules, i) {
      SameSizes(rules, rules', i);
    }
  }

  /** After `n` chains of the first pass. */
  ghost predicate PrepUpTo(cs: seq<ChainHead>, cs': seq<ChainHead>, n: nat) {
    && n <= |cs| && SameTable(cs, cs') && PlacedUpTo(cs', n)
    && forall k :: n <= k < |cs| ==> cs'[k] == cs[k]
  }

  lemma {:induction false} PrepStep(cs: seq<ChainHead>, before: seq<ChainHead>, k: nat, c: ChainHead)
    requires k < |cs| && PrepUpTo(cs, before, k)
    requires SameHead(cs[k], c) && ChainPlaced(c, Base(cs, k), BaseCount(cs, k))
    ensures PrepUpTo(cs, before[k := c], k + 1)
    ensures Base(cs, k + 1) == Base(cs, k) + ChainSize(c) && BaseCount(cs, k + 1) == BaseCount(cs, k) + ChainCount(c)
  {
    SameBases(cs, before, k);
    PlacingKeepsOthers(before, k, c);
    SameTableTransitive(cs, before, before[k := c]);
    SameSizes(cs[k].rules, c.rules, |c.rules|);
  }

  lemma {:induction false} PlacingKeepsOthers(cs: seq<ChainHead>, k: nat, c: ChainHead)
    requires k < |cs| && SameHead(cs[k], c) && PlacedUpTo(cs, k)
    requires ChainPlaced(c, Base(cs, k), BaseCount(cs, k))
    ensures SameTable(cs, cs[k := c]) && PlacedUpTo(cs[k := c], k + 1)
    ensures Base(cs[k := c], k) == Base(cs, k) && BaseCount(cs[k := c], k) == BaseCount(cs, k)
  {
    var cs' := cs[k := c];
    assert SameTable(cs, cs');
    forall j | 0 <= j <= k ensures Base(cs', j) == Base(cs, j) && BaseCount(cs', j) == BaseCount(cs, j) {
      SameBases(cs, cs', j);
    }
    forall j | 0 <= j < k + 1 ensures ChainPlaced(cs'[j], Base(cs', j), BaseCount(cs', j)) {
      assert j < k ==> cs'[j] == cs[j];
    }
  }

  /** First pass: where every entry goes, how many there are, and how large the blob is. */
  method PlaceChains(cs: seq<ChainHead>) returns (cs': seq<ChainHead>, number: nat, size: nat)
    ensures SameTable(cs, cs') && Placed(cs')
    ensures number == TableCount(cs') && size == TableSize(cs')
  {
    cs' := cs;
    var offset, num, k := 0, 0, 0;
    while k < |cs'|
      invariant PrepUpTo(cs, cs', k)
      invariant offset == Base(cs, k) && num == BaseCount(cs, k)
    {
      var c;
      c, offset, num := CompileChainOffsets(cs'[k], offset, num);
      PrepStep(cs, cs', k, c);
      cs' := cs'[k := c];
      k := k + 1;
    }
    SameBases(cs, cs', |cs|);
    return cs', num + 1, offset + HEAD_SIZE;
  }

  method CompilePrep(h: Handle) returns (number: nat, size: nat)
    requires h.Valid()
    modifies h`chains
    ensures h.Valid() && SameTable(old(h.chains), h.chains) && Placed(h.chains)
    ensures number == TableCount(h.chains) && size == TableSize(h.chains)
  {
    var cs;
    cs, number, size := PlaceChains(h.chains);
    SameTableOk(h.chains, cs, h.numChains, h.index, h.original);
    h.chains := cs;
  }

  // ---------------------------------------------------------------------------------- second pass

  /** What compilation needs of the rules: the verdict of jumps and fallthroughs is written into a target
      of standard size, and no extension is called like the error target. */
  predicate ReadyRule(r: RuleHead) {
    && (r.kind.Jump? || r.kind.Fallthrough? ==> IsStandardSized(r.entry.target))
    && (r.kind.Module? ==> r.entry.target.name != ERROR_TARGET)
  }

  ghost predicate Ready(cs: seq<ChainHead>) {
    forall k, i :: 0 <= k < |cs| && 0 <= i < |cs[k].rules| ==> ReadyRule(cs[k].rules[i])
  }

  /** A rule with its verdict filled in; a jump goes behind the error node of its target chain. */
  function Filled(cs: seq<ChainHead>, r: RuleHead): RuleHead {
    match r.kind
    case Jump(name) =>
      var j := Lookup(Abs(cs), name);
      if j.None? then r
      else r.(entry := r.entry.(target := r.entry.target.(
        name := STANDARD_TARGET, verdict := cs[j.value].headOffset + HEAD_SIZE)))
    case Fallthrough =>
      r.(entry := r.entry.(target := r.entry.target.(verdict := r.offset + r.size)))
    case _ => r
  }

  lemma {:induction false} FilledSame(cs: seq<ChainHead>, r: RuleHead)
    ensures SameRule(r, Filled(cs, r)) && Filled(cs, r).offset == r.offset && Filled(cs, r).index == r.index
    ensures ReadyRule(r) ==> ReadyRule(Filled(cs, r))
  {
  }

  /** Chain `c'` is chain `c` with the verdicts of its first `n` rules filled in. */
  ghost predicate ChainFilled(cs: seq<ChainHead>, c: ChainHead, c': ChainHead, n: nat) {
    && n <= |c.rules| == |c'.rules|
    && c' == c.(rules := c'.rules)
    && (forall i :: 0 <= i < n ==> c'.rules[i] == Filled(cs, c.rules[i]))
    && (forall i :: n <= i < |c.rules| ==> c'.rules[i] == c.rules[i])
  }

  ghost predicate TableFilled(cs: seq<ChainHead>, cs': seq<ChainHead>, n: nat) {
    && n <= |cs| == |cs'|
    && (forall k {:trigger cs'[k]} :: 0 <= k < n ==> ChainFilled(cs, cs[k], cs'[k], |cs[k].rules|))
    && (forall k {:trigger cs'[k]} :: n <= k < |cs| ==> cs'[k] == cs[k])
  }

  lemma {:induction false} FilledKeepsPlaces(cs: seq<ChainHead>, cs': seq<ChainHead>)
    requires TableFilled(cs, cs', |cs|) && Placed(cs)
    ensures SameTable(cs, cs') && Placed(cs')
  {
    forall k | 0 <= k < |cs| ensures SameHead(cs[k], cs'[k]) {
      assert ChainFilled(cs, cs[k], cs'[k], |cs[k].rules|);
      forall i | 0 <= i < |cs[k].rules| ensures SameRule(cs[k].rules[i], cs'[k].rules[i]) {
        FilledSame(cs, cs[k].rules[i]);
      }
    }
    forall k | 0 <= k < |cs'| ensures ChainPlaced(cs'[k], Base(cs', k), BaseCount(cs', k)) {
      SameBases(cs, cs', k);
      assert ChainPlaced(cs[k], Base(cs, k), BaseCount(cs, k)) && ChainFilled(cs, cs[k], cs'[k], |cs[k].rules|);
      PlacingKeepsSizes(cs[k].rules, cs'[k].rules);
      forall i | 0 <= i < |cs[k].rules|
        ensures cs'[k].rules[i].offset == cs[k].rules[i].offset && cs'[k].rules[i].index == cs[k].rules[i].index
      {
        FilledSame(cs, cs[k].rules[i]);
      }
    }
  }

  // ------------------------------------------------------------------------------ what a blob holds

  ghost predicate EntryAt(entries: map<nat, Entry>, off: nat, e: Entry) {
    off in entries && entries[off] == e
  }

  /** The head of chain `c` and its first `n` rules lie at their offsets. */
  ghost predicate HoldsPart(entries: map<nat, Entry>, c: ChainHead, n: nat) {
    && n <= |c.rules|
    && (c.hook == 0 ==> EntryAt(entries, c.headOffset, HeadEntry(c.name)))
    && forall i :: 0 <= i < n ==> EntryAt(entries, c.rules[i].offset, c.rules[i].entry)
  }

  ghost predicate HoldsChain(entries: map<nat, Entry>, c: ChainHead) {
    HoldsPart(entries, c, |c.rules|) && EntryAt(entries, c.footOffset, FootOf(c))
  }

  /** The first `n` chains lie in the blob, and so far nothing lies at or beyond `end`. */
  ghost predicate HoldsUpTo(entries: map<nat, Entry>, cs: seq<ChainHead>, n: nat)
    requires n <= |cs|
  {
    forall k {:trigger HoldsChain(entries, cs[k])} :: 0 <= k < n ==> HoldsChain(entries, cs[k])
  }

  ghost predicate Below(entries: map<nat, Entry>, end: nat) {
    forall off :: off in entries ==> off < end
  }

  /** The blob is the image of the chains: every entry at its place, the error node at the end, exactly as
      many entries as were counted, and the hooks at the builtin chains. */
  ghost predicate IsImage(b: Blob, cs: seq<ChainHead>) {
    && b.size == TableSize(cs)
    && HoldsUpTo(b.entries, cs, |cs|)
    && EntryAt(b.entries, b.size - HEAD_SIZE, HeadEntry(ERROR_TARGET))
    && |b.entries| == TableCount(cs)
    && HooksUpTo(b, cs, |cs|)
  }

  /** A builtin chain's hook leads to its first entry, and its underflow to its policy. */
  ghost predicate HookHeld(b: Blob, c: ChainHead) {
    c.hook > 0 ==>
      && c.hook - 1 in b.hooks && b.hooks[c.hook - 1] == c.headOffset
      && c.hook - 1 in b.underflows && b.underflows[c.hook - 1] == c.footOffset
  }

  ghost predicate HookUsed(cs: seq<ChainHead>, n: nat, hook: nat)
    requires n <= |cs|
  {
    exists k :: 0 <= k < n && cs[k].hook == hook
  }

  ghost predicate HooksUpTo(b: Blob, cs: seq<ChainHead>, n: nat)
    requires n <= |cs|
  {
    && (forall k {:trigger HookHeld(b, cs[k])} :: 0 <= k < n ==> HookHeld(b, cs[k]))
    && (forall i :: i in b.hooks ==> HookUsed(cs, n, i + 1))
  }

  /** Copies one entry to its offset, which is past everything written so far. */
  lemma {:induction false} WriteKeeps(entries: map<nat, Entry>, off: nat, e: Entry, end: nat,
                                      cs: seq<ChainHead>, n: nat, c: ChainHead, m: nat)
    requires off < end
    requires Below(entries, off) && n <= |cs| && HoldsUpTo(entries, cs, n) && HoldsPart(entries, c, m)
    ensures HoldsUpTo(entries[off := e], cs, n) && HoldsPart(entries[off := e], c, m)
    ensures Below(entries[off := e], end) && |entries[off := e]| == |entries| + 1
  {
    var entries' := entries[off := e];
    assert entries'.Keys == entries.Keys + {off};
    forall k | 0 <= k < n ensures HoldsChain(entries', cs[k]) {
      assert HoldsChain(entries, cs[k]);
    }
  }

  /** What has been written when `n` rules of chain `k` are done. */
  ghost predicate ChainWritten(cs: seq<ChainHead>, k: nat, c: ChainHead, entries: map<nat, Entry>,
                               done: seq<ChainHead>, n: nat)
    requires k < |cs|
  {
    && k <= |done| && ChainFilled(cs, cs[k], c, n)
    && HoldsUpTo(entries, done, k) && HoldsPart(entries, c, n)
    && Below(entries, Base(cs, k) + HeadSize(cs[k]) + SizeUpTo(cs[k].rules, n))
    && |entries| == BaseCount(cs, k) + HeadCount(cs[k]) + n
  }

  lemma {:induction false} WriteHead(cs: seq<ChainHead>, k: nat, entries: map<nat, Entry>, done: seq<ChainHead>)
    requires k < |cs| && ChainPlaced(cs[k], Base(cs, k), BaseCount(cs, k)) && k <= |done|
    requires HoldsUpTo(entries, done, k) && Below(entries, Base(cs, k)) && |entries| == BaseCount(cs, k)
    ensures cs[k].hook > 0 ==> ChainWritten(cs, k, cs[k], entries, done, 0)
    ensures cs[k].hook == 0 ==>
      ChainWritten(cs, k, cs[k], entries[cs[k].headOffset := HeadEntry(cs[k].name)], done, 0)
  {
    var c := cs[k];
    WriteKeeps(entries, c.headOffset, HeadEntry(c.name), c.headOffset + HEAD_SIZE, done, k, c.(hook := 1), 0);
  }

  lemma {:induction false} WriteRule(cs: seq<ChainHead>, k: nat, c: ChainHead, entries: map<nat, Entry>,
                                     done: seq<ChainHead>, n: nat,
                  r: RuleHead, c': ChainHead)
    requires k < |cs| && ChainPlaced(cs[k], Base(cs, k), BaseCount(cs, k))
    requires ChainWritten(cs, k, c, entries, done, n) && n < |cs[k].rules|
    requires r == Filled(cs, c.rules[n]) && c' == c.(rules := c.rules[n := r])
    ensures ChainWritten(cs, k, c', entries[r.offset := r.entry], done, n + 1)
  {
    FilledSame(cs, c.rules[n]);
    assert r.offset == Base(cs, k) + HeadSize(cs[k]) + SizeUpTo(cs[k].rules, n);
    WriteKeeps(entries, r.offset, r.entry, r.offset + r.size, done, k, c, n);
  }

  lemma {:induction false} WriteFoot(cs: seq<ChainHead>, k: nat, c: ChainHead, entries: map<nat, Entry>,
                                     done: seq<ChainHead>)
    requires k < |cs| && ChainPlaced(cs[k], Base(cs, k), BaseCount(cs, k))
    requires ChainWritten(cs, k, c, entries, done, |cs[k].rules|)
    ensures HoldsUpTo(entries[c.footOffset := FootOf(c)], done, k)
    ensures HoldsChain(entries[c.footOffset := FootOf(c)], c)
    ensures Below(entries[c.footOffset := FootOf(c)], Base(cs, k + 1))
    ensures |entries[c.footOffset := FootOf(c)]| == BaseCount(cs, k + 1)
  {
    WriteKeeps(entries, c.footOffset, FootOf(c), c.footOffset + FOOT_SIZE, done, k, c, |c.rules|);
  }

  /** Second pass over one chain: fills its verdicts and writes head, rules and foot. */
  method CompileChain(cs: seq<ChainHead>, k: nat, entries: map<nat, Entry>, ghost done: seq<ChainHead>)
    returns (c: ChainHead, entries': map<nat, Entry>)
    requires k < |cs| && ChainPlaced(cs[k], Base(cs, k), BaseCount(cs, k)) && k <= |done|
    requires HoldsUpTo(entries, done, k) && Below(entries, Base(cs, k)) && |entries| == BaseCount(cs, k)
    ensures ChainFilled(cs, cs[k], c, |cs[k].rules|)
    ensures HoldsUpTo(entries', done, k) && HoldsChain(entries', c)
    ensures Below(entries', Base(cs, k + 1)) && |entries'| == BaseCount(cs, k + 1)
  {
    c := cs[k];
    entries' := entries;
    WriteHead(cs, k, entries, done);
    if c.hook == 0 {
      entries' := entries'[c.headOffset := HeadEntry(c.name)];
    }
    var i := 0;
    while i < |c.rules|
      invariant ChainWritten(cs, k, c, entries', done, i)
    {
      var r := Filled(cs, c.rules[i]);
      WriteRule(cs, k, c, entries', done, i, r, c.(rules := c.rules[i := r]));
      entries' := entries'[r.offset := r.entry];
      c := c.(rules := c.rules[i := r]);
      i := i + 1;
    }
    WriteFoot(cs, k, c, entries', done);
    entries' := entries'[c.footOffset := FootOf(c)];
  }

  lemma {:induction false} HookRecorded(b: Blob, cs: seq<ChainHead>, k: nat, b': Blob)
    requires k < |cs| && HooksUpTo(b, cs, k)
    requires forall j :: 0 <= j < k && cs[j].hook > 0 ==> cs[j].hook != cs[k].hook
    requires b' == if cs[k].hook == 0 then b.(entries := b'.entries) else b.(entries := b'.entries,
      hooks := b.hooks[cs[k].hook - 1 := cs[k].headOffset],
      underflows := b.underflows[cs[k].hook - 1 := cs[k].footOffset])
    ensures HooksUpTo(b', cs, k + 1)
  {
    forall j | 0 <= j < k + 1 ensures HookHeld(b', cs[j]) {
      if j < k { assert HookHeld(b, cs[j]); }
    }
    forall i | i in b'.hooks ensures HookUsed(cs, k + 1, i + 1) {
      if i in b.hooks {
        assert HookUsed(cs, k, i + 1);
      } else {
        assert cs[k].hook == i + 1;
      }
    }
  }

  lemma {:induction false} HooksDiffer(cs: seq<ChainHead>)
    requires WellFormed(Abs(cs))
    ensures forall j, k :: 0 <= j < k < |cs| && cs[j].hook > 0 && cs[k].hook > 0 ==> cs[j].hook != cs[k].hook
  {
    Heads(cs);
  }

  /** What has been done after `k` chains of the second pass. */
  ghost predicate CompiledUpTo(cs: seq<ChainHead>, cs': seq<ChainHead>, b: Blob, k: nat) {
    && k <= |cs| && TableFilled(cs, cs', k)
    && HoldsUpTo(b.entries, cs', k) && HooksUpTo(b, cs', k)
    && Below(b.entries, Base(cs, k)) && |b.entries| == BaseCount(cs, k)
  }

  lemma {:induction false} NextCompiled(cs: seq<ChainHead>, cs': seq<ChainHead>, b: Blob, k: nat, c: ChainHead,
                                        b': Blob)
    requires CompiledUpTo(cs, cs', b, k) && k < |cs| && ChainFilled(cs, cs[k], c, |cs[k].rules|)
    requires forall j :: 0 <= j < k && cs[j].hook > 0 ==> cs[j].hook != cs[k].hook
    requires HoldsUpTo(b'.entries, cs', k) && HoldsChain(b'.entries, c)
    requires Below(b'.entries, Base(cs, k + 1)) && |b'.entries| == BaseCount(cs, k + 1)
    requires b' == if c.hook == 0 then b.(entries := b'.entries) else b.(entries := b'.entries,
      hooks := b.hooks[c.hook - 1 := c.headOffset], underflows := b.underflows[c.hook - 1 := c.footOffset])
    ensures CompiledUpTo(cs, cs'[k := c], b', k + 1)
  {
    var cs'' := cs'[k := c];
    assert forall j :: 0 <= j < k ==> cs''[j] == cs'[j];
    NextFilled(cs, cs', k, c);
    NextHeld(b'.entries, cs', k, c);
    HookRecorded(b, cs'', k, b');
  }

  lemma {:induction false} NextFilled(cs: seq<ChainHead>, cs': seq<ChainHead>, k: nat, c: ChainHead)
    requires k < |cs| && TableFilled(cs, cs', k) && ChainFilled(cs, cs[k], c, |cs[k].rules|)
    ensures TableFilled(cs, cs'[k := c], k + 1)
    ensures forall j :: 0 <= j < k ==> cs'[k := c][j].hook == cs[j].hook
  {
    forall j | 0 <= j < k ensures cs'[j].hook == cs[j].hook {
      assert ChainFilled(cs, cs[j], cs'[j], |cs[j].rules|);
    }
  }

  lemma {:induction false} NextHeld(entries: map<nat, Entry>, cs: seq<ChainHead>, k: nat, c: ChainHead)
    requires k < |cs| && HoldsUpTo(entries, cs, k) && HoldsChain(entries, c)
    ensures HoldsUpTo(entries, cs[k := c], k + 1)
  {
    var cs' := cs[k := c];
    forall j | 0 <= j < k + 1 ensures HoldsChain(entries, cs'[j]) {
      if j < k { assert HoldsChain(entries, cs[j]); }
    }
  }

  lemma {:induction false} LastWritten(cs: seq<ChainHead>, cs': seq<ChainHead>, b: Blob, b': Blob)
    requires CompiledUpTo(cs, cs', b, |cs|) && Placed(cs) && b.size == TableSize(cs)
    requires b' == b.(entries := b.entries[b.size - HEAD_SIZE := HeadEntry(ERROR_TARGET)])
    ensures SameTable(cs, cs') && Placed(cs') && IsImage(b', cs')
  {
    FilledKeepsPlaces(cs, cs');
    SameBases(cs, cs', |cs|);
    WriteKeeps(b.entries, b.size - HEAD_SIZE, HeadEntry(ERROR_TARGET), b.size, cs', |cs'|, NewChain("", 1), 0);
    forall k | 0 <= k < |cs'| ensures HookHeld(b', cs'[k]) {
      assert HookHeld(b, cs'[k]);
    }
  }

  /** Second pass: fills in the verdicts and writes the blob. */
  method WriteChains(cs: seq<ChainHead>, size: nat) returns (cs': seq<ChainHead>, b: Blob)
    requires Placed(cs) && size == TableSize(cs)
    requires forall j, k :: 0 <= j < k < |cs| && cs[j].hook > 0 && cs[k].hook > 0 ==> cs[j].hook != cs[k].hook
    ensures TableFilled(cs, cs', |cs|) && SameTable(cs, cs') && Placed(cs')
    ensures IsImage(b, cs')
  {
    cs' := cs;
    b := Blob(map[], size, map[], map[]);
    var k := 0;
    while k < |cs|
      invariant CompiledUpTo(cs, cs', b, k) && b.size == size
    {
      ghost var b0 := b;
      assert ChainPlaced(cs[k], Base(cs, k), BaseCount(cs, k));
      var c, entries := CompileChain(cs, k, b.entries, cs');
      b := b.(entries := entries);
      if c.hook > 0 {
        b := b.(hooks := b.hooks[c.hook - 1 := c.headOffset], underflows := b.underflows[c.hook - 1 := c.footOffset]);
      }
      NextCompiled(cs, cs', b0, k, c, b);
      cs' := cs'[k := c];
      k := k + 1;
    }
    ghost var b0 := b;
    b := b.(entries := b.entries[size - HEAD_SIZE := HeadEntry(ERROR_TARGET)]);
    LastWritten(cs, cs', b0, b);
  }

  method CompileTable(h: Handle, size: nat) returns (b: Blob)
    requires h.Valid() && Placed(h.chains) && size == TableSize(h.chains)
    modifies h`chains
    ensures h.Valid() && TableFilled(old(h.chains), h.chains, |h.chains|)
    ensures SameTable(old(h.chains), h.chains) && Placed(h.chains)
    ensures IsImage(b, h.chains)
  {
    HooksDiffer(h.chains);
    var cs;
    cs, b := WriteChains(h.chains, size);
    SameTableOk(h.chains, cs, h.numChains, h.index, h.original);
    h.chains := cs;
  }
}
