/** Comparing a rule with a pattern, byte by byte under a mask. */
module Deletion {
  import opened Names
  import opened Seqs
  import opened Rulesets
  import opened Cache

  method BytesDiffer(a: Bytes, b: Bytes, mask: Bytes, off: nat) returns (differ: bool)
    requires |a| == |b| && off + |a| <= |mask|
    ensures differ == !SameBytes(a, b, mask, off)
  {
    var i := 0;
    while i < |a|
      invariant i <= |a|
      invariant forall j :: 0 <= j < i ==> BitsAgree(a[j], b[j], mask[off + j])
    {
      if !BitsAgree(a[i], b[i], mask[off + i]) {
        return true;
      }
      i := i + 1;
    }
    return false;
  }

  /** Total size of the matches up to and including the next one. */
  lemma {:induction false} NextMatch(ms: seq<Match>, k: nat)
    requires k < |ms|
    ensures MatchesSize(ms[..k + 1]) == MatchesSize(ms[..k]) + MatchSize(ms[k])
    ensures MatchesSize(ms[..k + 1]) <= MatchesSize(ms)
  {
    var f := (m: Match) => MatchSize(m);
    assert ms[..k + 1][..k] == ms[..k];
    assert ms == ms[..k + 1] + ms[k + 1..];
    TotalConcat(ms[..k + 1], ms[k + 1..], f);
  }

  /** Entries of the same match size whose first matches agree in size cannot run out apart. */
  lemma {:induction false} SameLength(a: seq<Match>, b: seq<Match>, k: nat)
    requires MatchesSize(a) == MatchesSize(b) && k <= |a| && k <= |b|
    requires MatchesSize(a[..k]) == MatchesSize(b[..k])
    ensures k == |a| <==> k == |b|
  {
    if k < |a| { NextMatch(a, k); }
    if k < |b| { NextMatch(b, k); }
    assert k == |a| ==> a[..k] == a;
    assert k == |b| ==> b[..k] == b;
  }

  /** Compares everything but the target; on success also returns how far the mask has been used. */
  method IsSame(a: Entry, b: Entry, mask: Bytes) returns (off: Option<nat>)
    requires |mask| >= EntrySize(a)
    ensures off.Some? <==>
      && a.ip.src == b.ip.src && a.ip.srcMask == b.ip.srcMask && a.ip.dst == b.ip.dst && a.ip.dstMask == b.ip.dstMask
      && a.ip.proto == b.ip.proto && a.ip.flags == b.ip.flags && a.ip.invFlags == b.ip.invFlags
      && SameInterface(a.ip.inIface, a.ip.inMask, b.ip.inIface, b.ip.inMask)
      && SameInterface(a.ip.outIface, a.ip.outMask, b.ip.outIface, b.ip.outMask)
      && SameMatches(a.matches, b.matches, mask) && TargetSize(a.target) == TargetSize(b.target)
    ensures off.Some? ==> off.value == ENTRY_SIZE + MatchesSize(a.matches) + HEADER_SIZE
  {
    if a.ip.src != b.ip.src || a.ip.dst != b.ip.dst || a.ip.srcMask != b.ip.srcMask
       || a.ip.dstMask != b.ip.dstMask || a.ip.proto != b.ip.proto || a.ip.flags != b.ip.flags
       || a.ip.invFlags != b.ip.invFlags {
      return None;
    }
    var interfaces := InterfacesSame(a.ip, b.ip);
    if !interfaces {
      return None;
    }
    if MatchesSize(a.matches) != MatchesSize(b.matches) || EntrySize(a) != EntrySize(b) {
      MatchesSameSize(a.matches, b.matches, mask);
      return None;
    }
    var at := MatchesCompared(a.matches, b.matches, mask);
    return if at.None? then None else Some(at.value + HEADER_SIZE);
  }

  /** Walks the matches of both entries in step, moving through the mask as it goes. */
  method MatchesCompared(a: seq<Match>, b: seq<Match>, mask: Bytes) returns (end: Option<nat>)
    requires |mask| >= ENTRY_SIZE + MatchesSize(a) && MatchesSize(a) == MatchesSize(b)
    ensures end.Some? <==> SameMatches(a, b, mask)
    ensures end.Some? ==> end.value == ENTRY_SIZE + MatchesSize(a)
  {
    var k, at := 0, ENTRY_SIZE;
    while k < |a|
      invariant k <= |a| && k <= |b|
      invariant MatchesSize(a[..k]) == MatchesSize(b[..k])
      invariant at == ENTRY_SIZE + MatchesSize(a[..k])
      invariant forall j :: 0 <= j < k ==>
        a[j].name == b[j].name
        && SameBytes(a[j].data, b[j].data, mask, ENTRY_SIZE + MatchesSize(a[..j]) + HEADER_SIZE)
    {
      SameLength(a, b, k);
      var m, n := a[k], b[k];
      NextMatch(a, k);
      NextMatch(b, k);
      if MatchSize(m) != MatchSize(n) || m.name != n.name {
        return None;
      }
      var differ := BytesDiffer(m.data, n.data, mask, at + HEADER_SIZE);
      if differ {
        return None;
      }
      at := at + MatchSize(m);
      k := k + 1;
    }
    SameLength(a, b, k);
    assert a[..k] == a;
    return Some(at);
  }

  lemma {:induction false} MatchesSameSize(a: seq<Match>, b: seq<Match>, mask: Bytes)
    ensures SameMatches(a, b, mask) ==> MatchesSize(a) == MatchesSize(b)
  {
    if SameMatches(a, b, mask) {
      var f := (m: Match) => MatchSize(m);
      TotalSame(a, b, f, f);
    }
  }

  method InterfacesSame(a: Ip, b: Ip) returns (same: bool)
    ensures same == (SameInterface(a.inIface, a.inMask, b.inIface, b.inMask)
                     && SameInterface(a.outIface, a.outMask, b.outIface, b.outMask))
  {
    var i := 0;
    while i < 16
      invariant i <= 16
      invariant forall j :: 0 <= j < i ==> MaskedSame(a.inIface[j], a.inMask[j], b.inIface[j], b.inMask[j])
      invariant forall j :: 0 <= j < i ==> MaskedSame(a.outIface[j], a.outMask[j], b.outIface[j], b.outMask[j])
    {
      if !MaskedSame(a.inIface[i], a.inMask[i], b.inIface[i], b.inMask[i]) {
        return false;
      }
      if !MaskedSame(a.outIface[i], a.outMask[i], b.outIface[i], b.outMask[i]) {
        return false;
      }
      i := i + 1;
    }
    return true;
  }

  /** Compares the targets of two rules, by rule type. */
  method TargetSame(a: RuleHead, b: RuleHead, mask: Bytes, off: nat) returns (same: bool)
    requires off + |a.entry.target.data| <= |mask|
    ensures same == SameAction(AbsAction(a), AbsAction(b), mask, off)
  {
    if a.kind.Jump? != b.kind.Jump? || (!a.kind.Jump? && a.kind != b.kind) {
      return false;
    }
    match a.kind {
      case Fallthrough => return true;
      case Jump(target) => return target == b.kind.target;
      case Standard => return a.entry.target.verdict == b.entry.target.verdict;
      case Module =>
        var ta, tb := a.entry.target, b.entry.target;
        if TargetSize(ta) != TargetSize(tb) || ta.name != tb.name {
          return false;
        }
        var differ := BytesDiffer(ta.data, tb.data, mask, off);
        return !differ;
    }
  }

  /** The comparison of one rule with the pattern. */
  method RuleIsSame(pattern: RuleHead, r: RuleHead, mask: Bytes) returns (same: bool)
    requires |mask| >= EntrySize(pattern.entry)
    ensures same == Same(AbsRule(pattern), AbsRule(r), mask)
  {
    var off := IsSame(pattern.entry, r.entry, mask);
    if off.None? {
      return false;
    }
    same := TargetSame(pattern, r, mask, off.value);
  }
}
