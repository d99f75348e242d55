/** The chain index: an array of pointers into the sorted list of user chains, one for every
    `BUCKET_LEN` chains when just built.  A pointer to a chain is modelled by the chain's name; the
    list head, which the index may come to point at, has the empty name. */
module ChainIndex {
  import opened Names

  const BUCKET_LEN: nat := 40
  const INSERT_MAX: nat := 355

  // ------------------------------------------------------------------ specification of the search

  /** `k` is the slot from which a search for `name` has to start: the last slot whose chain is not
      beyond `name`, or slot 0 when every slot is. */
  ghost predicate IsSlot(index: seq<Name>, name: Name, k: nat) {
    && k < |index|
    && (k == 0 || !Less(name, index[k]))
    && forall j :: k < j < |index| ==> Less(name, index[j])
  }

  lemma {:induction false} SlotIsUnique(index: seq<Name>, name: Name, k: nat, k': nat)
    requires IsSlot(index, name, k) && IsSlot(index, name, k')
    ensures k == k'
  {
  }

  /** Every sorted index has such a slot. */
  lemma {:induction false} SlotExists(index: seq<Name>, name: Name) returns (k: nat)
    requires Sorted(index) && |index| > 0
    ensures IsSlot(index, name, k)
  {
    k := |index| - 1;
    while k > 0 && Less(name, index[k])
      invariant k < |index|
      invariant forall j :: k < j < |index| ==> Less(name, index[j])
    {
      k := k - 1;
    }
  }

  // ------------------------------------------------------------------------ counting the probes

  /** floor(log2 n) + 1 for n > 0. */
  function BitLength(n: nat): nat {
    if n == 0 then 0 else 1 + BitLength(n / 2)
  }

  lemma {:induction false} BitLengthMonotone(m: nat, n: nat)
    requires m <= n
    ensures BitLength(m) <= BitLength(n)
  {
    if m > 0 { BitLengthMonotone(m / 2, n / 2); }
  }

  /** Halving loses one bit. */
  lemma {:induction false} BitLengthHalf(m: nat, n: nat)
    requires 0 < n && 2 * m <= n
    ensures BitLength(m) <= BitLength(n) - 1
  {
    BitLengthMonotone(m, n / 2);
  }

  /** `rounds` rounds of `bits` probes each. */
  ghost function Rounds(rounds: nat, bits: nat): nat {
    if rounds == 0 then 0 else Rounds(rounds - 1, bits) + bits
  }

  lemma {:induction false} RoundsMonotone(r: nat, r': nat, bits: nat)
    requires r <= r'
    ensures Rounds(r, bits) <= Rounds(r', bits)
  {
    if r < r' { RoundsMonotone(r, r' - 1, bits); }
  }

  lemma {:induction false} RoundsIsProduct(rounds: nat, bits: nat)
    ensures Rounds(rounds, bits) == rounds * bits
  {
    if rounds > 0 {
      RoundsIsProduct(rounds - 1, bits);
      assert (rounds - 1) * bits + bits == rounds * bits;
    }
  }

  /** The first probe of a run of forward jumps leaves fewer than floor(log2 n) + 1 to come. */
  lemma {:induction false} RunFits(n: nat, end: nat)
    requires 0 < end <= n
    ensures BitLength(end - end / 2 - 1) < BitLength(n)
  {
    BitLengthMonotone(end, n);
    BitLengthHalf(end - end / 2 - 1, end);
  }

  /** Worst number of probes still to come: `rounds` whole runs after the current one, which has
      `run` more after the next. */
  ghost function Budget(bits: nat, rounds: nat, run: nat): nat {
    Rounds(rounds, bits) + run + 1
  }

  lemma {:induction false} BudgetDrops(bits: nat, rounds: nat, run: nat, rounds': nat, run': nat)
    requires rounds' < rounds && run' < bits
    ensures Budget(bits, rounds', run') < Budget(bits, rounds, run)
  {
    RoundsMonotone(rounds', rounds - 1, bits);
  }

  /** After `probes` probes, the next one at `pos` in the window below `end`, the search for slot `t`
      still keeps within its allowance: `rounds` whole runs and `run` more forward jumps suffice. */
  ghost predicate OnBudget(n: nat, t: int, end: int, pos: int, rounds: nat, run: nat, probes: nat) {
    && 0 <= pos < end <= n
    && 0 <= t < end
    && BitLength(end - t) <= rounds + 1
    && BitLength(end - pos - 1) <= run
    && probes + Budget(BitLength(n), rounds, run) <= Rounds(BitLength(n), BitLength(n))
  }

  lemma {:induction false} StartOnBudget(n: nat, t: nat) returns (rounds: nat, run: nat)
    requires t < n
    ensures OnBudget(n, t, n, n / 2, rounds, run, 0)
  {
    rounds, run := BitLength(n) - 1, BitLength(n - n / 2 - 1);
    RunFits(n, n);
    BitLengthMonotone(n - t, n);
  }

  /** A jump back starts a new run, but the distance from the end to the slot has at least halved. */
  lemma {:induction false} JumpBackOnBudget(n: nat, t: int, end: int, pos: int, rounds: nat, run: nat, probes: nat)
    returns (rounds': nat, run': nat)
    requires OnBudget(n, t, end, pos, rounds, run, probes)
    requires t < pos && 2 * pos <= end + t
    ensures OnBudget(n, t, pos, pos / 2, rounds', run', probes + 1)
  {
    assert BitLength(pos - t) <= rounds by { BitLengthHalf(pos - t, end - t); }
    rounds', run' := rounds - 1, BitLength(pos - pos / 2 - 1);
    assert run' < BitLength(n) by { RunFits(n, pos); }
    BudgetDrops(BitLength(n), rounds, run, rounds', run');
  }

  /** A jump forward halves the way to the end of the window. */
  lemma {:induction false} JumpForwardOnBudget(n: nat, t: int, end: int, pos: int, rounds: nat, run: nat, probes: nat)
    requires OnBudget(n, t, end, pos, rounds, run, probes)
    requires pos + 1 < end
    ensures run > 0 && OnBudget(n, t, end, (pos + end) / 2, rounds, run - 1, probes + 1)
  {
    BitLengthHalf(end - (pos + end) / 2 - 1, end - pos - 1);
  }

  // --------------------------------------------------------------------------- the two searches

  /** Binary search with the library's probing order: the first probe is in the middle, a jump back
      goes to half the position and forgets the lower bound, a jump forward halves the way to the
      end.  It still finds the slot, and within (floor(log2 n) + 1)^2 probes.  A probe is one round of the loop;
      a round that jumps forward compares two names. */
  method BinarySearch(index: seq<Name>, name: Name) returns (slot: nat, ghost probes: nat)
    requires Sorted(index) && |index| > 0
    ensures IsSlot(index, name, slot)
    ensures probes <= BitLength(|index|) * BitLength(|index|)
  {
    ghost var t := SlotExists(index, name);
    var end := |index|;
    var pos := end / 2;
    probes := 0;
    ghost var rounds, run := StartOnBudget(|index|, t);
    RoundsIsProduct(BitLength(|index|), BitLength(|index|));
    while true
      invariant OnBudget(|index|, t, end, pos, rounds, run, probes)
      invariant end < |index| ==> Less(name, index[end])
      invariant 2 * pos <= end + t
      decreases end, end - pos
    {
      var res := Compare(name, index[pos]);
      probes := probes + 1;
      if res == 0 {
        Trichotomy(name, index[pos]);
        assert IsSlot(index, name, pos);
        return pos, probes;
      } else if res < 0 {
        BelowRest(index, name, pos);
        if pos == 0 {
          return 0, probes;
        }
        rounds, run := JumpBackOnBudget(|index|, t, end, pos, rounds, run, probes - 1);
        end := pos;
        pos := pos / 2;
      } else {
        if pos == |index| - 1 {
          return pos, probes;
        }
        res := Compare(name, index[pos + 1]);
        if res < 0 {
          BelowRest(index, name, pos + 1);
          return pos, probes;
        }
        assert pos + 1 <= t;
        JumpForwardOnBudget(|index|, t, end, pos, rounds, run, probes - 1);
        pos := (pos + end) / 2;
        run := run - 1;
      }
    }
  }

  /** The straight walk over the index which the library keeps to check the search above. */
  method LinearSearch(index: seq<Name>, name: Name) returns (slot: nat)
    requires Sorted(index) && |index| > 0
    ensures IsSlot(index, name, slot)
  {
    slot := 0;
    var i := 0;
    while i < |index|
      invariant i <= |index|
      invariant slot == if i == 0 then 0 else i - 1
      invariant i > 0 ==> slot == 0 || !Less(name, index[slot])
    {
      var res := Compare(index[i], name);
      Antisymmetric(index[i], name);
      if res > 0 {
        BelowRest(index, name, i);
        return;
      }
      slot := i;
      if res == 0 {
        return;
      }
      i := i + 1;
    }
  }

  /** The check the library makes after every search can never fire. */
  method SearchesAgree(index: seq<Name>, name: Name) returns (fast: nat, plain: nat)
    requires Sorted(index) && |index| > 0
    ensures fast == plain < |index|
  {
    ghost var probes;
    fast, probes := BinarySearch(index, name);
    plain := LinearSearch(index, name);
    SlotIsUnique(index, name, fast, plain);
  }
}
