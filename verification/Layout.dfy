/** Where every entry of a table goes in the blob that is handed to the kernel. */
module Layout {
  import opened Names
  import opened Seqs
  import opened Rulesets
  import opened Editing
  import opened Cache
  import opened LookupFacts
  import opened HandleFacts

  const HEAD_SIZE: nat := ENTRY_SIZE + ERROR_SIZE
  const FOOT_SIZE: nat := ENTRY_SIZE + STANDARD_SIZE

  const BLANK_IP := Ip(0, 0, 0, 0, NO_INTERFACE, NO_INTERFACE, NO_INTERFACE, NO_INTERFACE, 0, 0, 0)

  /** The error node in front of a user chain, which carries its name; and the one at the table's end. */
  function HeadEntry(name: Name): (e: Entry)
    ensures EntrySize(e) == HEAD_SIZE
  {
    Entry(BLANK_IP, [], Target(ERROR_TARGET, Zeros(ERROR_SIZE - HEADER_SIZE), 0, name), ZERO_COUNTERS)
  }

  /** The unconditional verdict at the end of a chain. */
  function FootEntry(verdict: int, counters: Counters): (e: Entry)
    ensures EntrySize(e) == FOOT_SIZE
  {
    Entry(BLANK_IP, [], Target(STANDARD_TARGET, Zeros(STANDARD_SIZE - HEADER_SIZE), verdict, ""), counters)
  }

  function FootOf(c: ChainHead): Entry {
    FootEntry(if c.hook > 0 then c.verdict else RETURN, c.counters)
  }

  // ------------------------------------------------------------------------------------------ sizes

  /** Bytes taken by the first `i` rules. */
  function SizeUpTo(rules: seq<RuleHead>, i: nat): nat
    requires i <= |rules|
  {
    if i == 0 then 0 else SizeUpTo(rules, i - 1) + rules[i - 1].size
  }

  function HeadSize(c: ChainHead): nat { if c.hook > 0 then 0 else HEAD_SIZE }

  function HeadCount(c: ChainHead): nat { if c.hook > 0 then 0 else 1 }

  function ChainSize(c: ChainHead): nat { HeadSize(c) + SizeUpTo(c.rules, |c.rules|) + FOOT_SIZE }

  function ChainCount(c: ChainHead): nat { HeadCount(c) + |c.rules| + 1 }

  /** Bytes taken by the first `k` chains. */
  function Base(cs: seq<ChainHead>, k: nat): nat
    requires k <= |cs|
  {
    if k == 0 then 0 else Base(cs, k - 1) + ChainSize(cs[k - 1])
  }

  /** Number of entries in the first `k` chains. */
  function BaseCount(cs: seq<ChainHead>, k: nat): nat
    requires k <= |cs|
  {
    if k == 0 then 0 else BaseCount(cs, k - 1) + ChainCount(cs[k - 1])
  }

  function TableSize(cs: seq<ChainHead>): nat { Base(cs, |cs|) + HEAD_SIZE }

  function TableCount(cs: seq<ChainHead>): nat { BaseCount(cs, |cs|) + 1 }

  /** The first `n` rules have the offsets and indices of a chain whose rules begin at `off` and `num`. */
  ghost predicate RulesPlaced(rules: seq<RuleHead>, off: nat, num: nat, n: nat)
    requires n <= |rules|
  {
    forall i {:trigger rules[i].offset} {:trigger rules[i].index} :: 0 <= i < n ==>
      rules[i].offset == off + SizeUpTo(rules, i) && rules[i].index == num + i
  }

  ghost predicate ChainPlaced(c: ChainHead, off: nat, num: nat) {
    && c.headOffset == off
    && RulesPlaced(c.rules, off + HeadSize(c), num + HeadCount(c), |c.rules|)
    && c.footOffset == off + HeadSize(c) + SizeUpTo(c.rules, |c.rules|)
    && c.footIndex == num + HeadCount(c) + |c.rules|
  }

  /** The first `n` chains lie one after the other from the start of the blob. */
  ghost predicate PlacedUpTo(cs: seq<ChainHead>, n: nat)
    requires n <= |cs|
  {
    forall k {:trigger ChainPlaced(cs[k], Base(cs, k), BaseCount(cs, k))} :: 0 <= k < n ==>
      ChainPlaced(cs[k], Base(cs, k), BaseCount(cs, k))
  }

  ghost predicate Placed(cs: seq<ChainHead>) { PlacedUpTo(cs, |cs|) }

  lemma {:induction false} SizeUpToMonotone(rules: seq<RuleHead>, i: nat, j: nat)
    requires i <= j <= |rules|
    ensures SizeUpTo(rules, i) <= SizeUpTo(rules, j)
    ensures i < j ==> SizeUpTo(rules, i) + rules[i].size <= SizeUpTo(rules, j)
  {
    if i < j { SizeUpToMonotone(rules, i, j - 1); }
  }

  lemma {:induction false} BaseMonotone(cs: seq<ChainHead>, j: nat, k: nat)
    requires j <= k <= |cs|
    ensures Base(cs, j) <= Base(cs, k) && BaseCount(cs, j) <= BaseCount(cs, k)
    ensures j < k ==> Base(cs, j) + ChainSize(cs[j]) <= Base(cs, k)
    ensures j < k ==> BaseCount(cs, j) + ChainCount(cs[j]) <= BaseCount(cs, k)
  {
    if j < k { BaseMonotone(cs, j, k - 1); }
  }

  /** A table takes 152 bytes for the policy of each chain, 176 for the error node of each user chain and for the one at
      the end, and the sizes of its rules. */
  lemma {:induction false} TableInBytes(cs: seq<ChainHead>, n: nat)
    requires n <= |cs|
    ensures Base(cs, n) == 152 * n + 176 * UserCount(cs[..n]) + Total(cs[..n], RulesSize())
    ensures TableSize(cs) == Base(cs, |cs|) + 176
  {
    if n > 0 {
      TableInBytes(cs, n - 1);
      assert cs[..n][..n - 1] == cs[..n - 1];
    }
  }

  function RulesSize(): ChainHead -> nat { (c: ChainHead) => SizeUpTo(c.rules, |c.rules|) }

  // ----------------------------------------------------------------------------- unchanged meaning

  /** Rules that differ at most in their layout numbers and in the verdict that the compiler fills in. */
  ghost predicate SameRule(r: RuleHead, r': RuleHead) {
    && AbsRule(r') == AbsRule(r) && r'.kind == r.kind && r'.size == r.size && r'.counterMap == r.counterMap
    && r'.entry.counters == r.entry.counters
    && (KindOk(r) ==> KindOk(r')) && |r'.entry.target.data| == |r.entry.target.data|
  }

  ghost predicate SameHead(c: ChainHead, c': ChainHead) {
    && c'.name == c.name && c'.hook == c.hook && c'.references == c.references && c'.verdict == c.verdict
    && c'.counters == c.counters && c'.counterMap == c.counterMap && c'.numRules == c.numRules
    && |c'.rules| == |c.rules|
    && forall i :: 0 <= i < |c.rules| ==> SameRule(c.rules[i], c'.rules[i])
  }

  ghost predicate SameTable(cs: seq<ChainHead>, cs': seq<ChainHead>) {
    |cs'| == |cs| && forall k :: 0 <= k < |cs| ==> SameHead(cs[k], cs'[k])
  }

  lemma {:induction false} SameHeadAbs(c: ChainHead, c': ChainHead)
    requires SameHead(c, c')
    ensures AbsChain(c') == AbsChain(c)
  {
    assert Map(c'.rules, AbsRule) == Map(c.rules, AbsRule);
  }

  lemma {:induction false} SameTableOk(cs: seq<ChainHead>, cs': seq<ChainHead>, numChains: nat, index: seq<Name>,
                                       original: seq<Counters>)
    requires SameTable(cs, cs') && TableOk(cs, numChains, index, original)
    ensures Abs(cs') == Abs(cs) && TableOk(cs', numChains, index, original)
  {
    forall k | 0 <= k < |cs| ensures AbsChain(cs'[k]) == AbsChain(cs[k]) {
      SameHeadAbs(cs[k], cs'[k]);
    }
    assert Abs(cs') == Abs(cs);
    TotalSame(cs, cs', IsUserHead(), IsUserHead());
    SameTableSizes(cs, cs');
    SameTableTracked(cs, cs', original);
  }

  lemma {:induction false} SameTableSizes(cs: seq<ChainHead>, cs': seq<ChainHead>)
    requires SameTable(cs, cs') && SizesOk(cs)
    ensures SizesOk(cs')
  {
    forall k | 0 <= k < |cs'| ensures SameSizedRules(cs[k], cs'[k]) {
      assert SameHead(cs[k], cs'[k]);
      forall i | 0 <= i < |cs[k].rules| ensures cs'[k].rules[i].entry.matches == cs[k].rules[i].entry.matches {
        assert SameRule(cs[k].rules[i], cs'[k].rules[i]);
        assert AbsRule(cs'[k].rules[i]).matches == AbsRule(cs[k].rules[i]).matches;
      }
    }
    SizesSame(cs, cs');
  }

  lemma {:induction false} SameTableTracked(cs: seq<ChainHead>, cs': seq<ChainHead>, original: seq<Counters>)
    requires SameTable(cs, cs') && Tracked(cs, original)
    ensures Tracked(cs', original)
  {
    forall p: nat ensures Takers(cs', p) <= 1 {
      assert Takers(cs, p) <= 1;
      forall k | 0 <= k < |cs| ensures ChainMaps(p)(cs[k]) == ChainMaps(p)(cs'[k]) {
        TotalSame(cs[k].rules, cs'[k].rules, RuleMaps(p), RuleMaps(p));
      }
      TotalSame(cs, cs', ChainMaps(p), ChainMaps(p));
    }
    forall k | 0 <= k < |cs'| ensures ChainSlotsOk(cs'[k], original) {
      assert ChainSlotsOk(cs[k], original);
    }
  }

  lemma {:induction false} SameSizes(rules: seq<RuleHead>, rules': seq<RuleHead>, n: nat)
    requires n <= |rules| == |rules'| && forall i :: 0 <= i < n ==> SameRule(rules[i], rules'[i])
    ensures SizeUpTo(rules', n) == SizeUpTo(rules, n)
  {
    if n > 0 {
      SameSizes(rules, rules', n - 1);
    }
  }

  lemma {:induction false} SameBases(cs: seq<ChainHead>, cs': seq<ChainHead>, n: nat)
    requires SameTable(cs, cs') && n <= |cs|
    ensures Base(cs', n) == Base(cs, n) && BaseCount(cs', n) == BaseCount(cs, n)
  {
    if n > 0 {
      SameBases(cs, cs', n - 1);
      SameSizes(cs[n - 1].rules, cs'[n - 1].rules, |cs[n - 1].rules|);
    }
  }

  lemma {:induction false} SameTableTransitive(a: seq<ChainHead>, b: seq<ChainHead>, c: seq<ChainHead>)
    requires SameTable(a, b) && SameTable(b, c)
    ensures SameTable(a, c)
  {
    forall k | 0 <= k < |a| ensures SameHead(a[k], c[k]) {
      assert SameHead(a[k], b[k]) && SameHead(b[k], c[k]);
      forall i | 0 <= i < |a[k].rules| ensures SameRule(a[k].rules[i], c[k].rules[i]) {
        assert SameRule(a[k].rules[i], b[k].rules[i]) && SameRule(b[k].rules[i], c[k].rules[i]);
      }
    }
  }
}
