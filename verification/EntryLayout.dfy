/** How the Python binding lays out one entry: header, matches, target, one after the other. */
module EntryLayout {
  import opened Seqs
  import opened Rulesets

  const TCP: nat := 6

  datatype Piece = MatchPiece(m: Match) | TargetPiece(t: Target)

  /** An entry in memory: pieces by offset from the start of the entry, and the two offsets in its header. */
  datatype Image = Image(ip: Ip, pieces: map<nat, Piece>, targetOffset: nat, nextOffset: nat)

  /** Offset of match `k`. */
  function MatchOffset(ms: seq<Match>, k: nat): nat
    requires k <= |ms|
  {
    ENTRY_SIZE + MatchesSize(ms[..k])
  }

  lemma {:induction false} NextMatchOffset(ms: seq<Match>, k: nat)
    requires k < |ms|
    ensures MatchOffset(ms, k + 1) == MatchOffset(ms, k) + MatchSize(ms[k])
  {
    assert ms[..k + 1][..k] == ms[..k];
  }

  lemma {:induction false} OffsetsGrow(ms: seq<Match>, j: nat, k: nat)
    requires j < k <= |ms|
    ensures MatchOffset(ms, j) + MatchSize(ms[j]) <= MatchOffset(ms, k)
    ensures MatchOffset(ms, j) < MatchOffset(ms, k)
  {
    NextMatchOffset(ms, k - 1);
    if j < k - 1 { OffsetsGrow(ms, j, k - 1); }
  }

  /** The first `n` matches lie at their offsets. */
  ghost predicate Holds(pieces: map<nat, Piece>, ms: seq<Match>, n: nat)
    requires n <= |ms|
  {
    forall k {:trigger ms[k]} :: 0 <= k < n ==>
      MatchOffset(ms, k) in pieces && pieces[MatchOffset(ms, k)] == MatchPiece(ms[k])
  }

  /** Adds the sizes up, and then copies matches and target to their places. */
  method Generate(ip: Ip, matches: seq<Match>, target: Target) returns (e: Image)
    ensures e.ip == ip.(proto := 6, invFlags := 0)
    ensures e.targetOffset == MatchOffset(matches, |matches|)
    ensures e.nextOffset == EntrySize(Entry(ip, matches, target, ZERO_COUNTERS))
    ensures Holds(e.pieces, matches, |matches|)
    ensures e.targetOffset in e.pieces && e.pieces[e.targetOffset] == TargetPiece(target)
    ensures |e.pieces| == |matches| + 1
  {
    var size, i := ENTRY_SIZE, 0;
    assert matches[..0] == [];
    while i < |matches|
      invariant i <= |matches| && size == MatchOffset(matches, i)
    {
      NextMatchOffset(matches, i);
      size := size + MatchSize(matches[i]);
      i := i + 1;
    }
    assert matches[..|matches|] == matches;
    e := Image(ip.(proto := TCP, invFlags := 0), map[], size, size + TargetSize(target));
    size, i := ENTRY_SIZE, 0;
    while i < |matches|
      invariant i <= |matches| && size == MatchOffset(matches, i)
      invariant e == Image(ip.(proto := TCP, invFlags := 0), e.pieces, e.targetOffset, e.nextOffset)
      invariant e.targetOffset == MatchOffset(matches, |matches|) && e.nextOffset == e.targetOffset + TargetSize(target)
      invariant Holds(e.pieces, matches, i) && |e.pieces| == i
      invariant forall off :: off in e.pieces ==> off < size
    {
      NextMatchOffset(matches, i);
      Copied(e.pieces, matches, i, MatchPiece(matches[i]));
      e := e.(pieces := e.pieces[size := MatchPiece(matches[i])]);
      size := size + MatchSize(matches[i]);
      i := i + 1;
    }
    Copied(e.pieces, matches, |matches|, TargetPiece(target));
    e := e.(pieces := e.pieces[size := TargetPiece(target)]);
  }

  lemma {:induction false} KeptHeld(pieces: map<nat, Piece>, ms: seq<Match>, n: nat, at: nat, piece: Piece)
    requires n <= |ms| && Holds(pieces, ms, n) && at !in pieces
    ensures Holds(pieces[at := piece], ms, n) && |pieces[at := piece]| == |pieces| + 1
  {
    hide MatchOffset;
    var pieces' := pieces[at := piece];
    assert pieces'.Keys == pieces.Keys + {at};
    forall k | 0 <= k < n ensures MatchOffset(ms, k) in pieces' && pieces'[MatchOffset(ms, k)] == MatchPiece(ms[k]) {
      var m := ms[k];
      assert MatchOffset(ms, k) in pieces && pieces[MatchOffset(ms, k)] == MatchPiece(m);
    }
  }

  lemma {:induction false} NextHeld(pieces: map<nat, Piece>, ms: seq<Match>, n: nat)
    requires n < |ms| && Holds(pieces, ms, n)
    requires MatchOffset(ms, n) in pieces && pieces[MatchOffset(ms, n)] == MatchPiece(ms[n])
    ensures Holds(pieces, ms, n + 1)
  {
    hide MatchOffset;
    forall k | 0 <= k < n ensures MatchOffset(ms, k) in pieces && pieces[MatchOffset(ms, k)] == MatchPiece(ms[k]) {
      var m := ms[k];
    }
  }

  /** Copying one more piece behind the others. */
  lemma {:induction false} Copied(pieces: map<nat, Piece>, ms: seq<Match>, n: nat, piece: Piece)
    requires n <= |ms| && Holds(pieces, ms, n) && forall off :: off in pieces ==> off < MatchOffset(ms, n)
    ensures Holds(pieces[MatchOffset(ms, n) := piece], ms, n)
    ensures |pieces[MatchOffset(ms, n) := piece]| == |pieces| + 1
    ensures n < |ms| && piece == MatchPiece(ms[n]) ==> Holds(pieces[MatchOffset(ms, n) := piece], ms, n + 1)
  {
    hide MatchOffset, Holds;
    KeptHeld(pieces, ms, n, MatchOffset(ms, n), piece);
    if n < |ms| && piece == MatchPiece(ms[n]) { NextHeld(pieces[MatchOffset(ms, n) := piece], ms, n); }
  }

  /** Reads the matches back, from `off` on by their sizes up to the target. */
  function ReadMatches(e: Image, off: nat): Option<seq<Match>>
    decreases e.targetOffset - off
  {
    if off == e.targetOffset then Some([])
    else if off > e.targetOffset || off !in e.pieces || !e.pieces[off].MatchPiece? then None
    else
      match ReadMatches(e, off + MatchSize(e.pieces[off].m))
      case None => None
      case Some(rest) => Some([e.pieces[off].m] + rest)
  }

  lemma {:induction false} ReadsFrom(e: Image, ms: seq<Match>, k: nat)
    requires k <= |ms| && Holds(e.pieces, ms, |ms|) && e.targetOffset == MatchOffset(ms, |ms|)
    ensures ReadMatches(e, MatchOffset(ms, k)) == Some(ms[k..])
    decreases |ms| - k
  {
    if k < |ms| {
      var m, off := ms[k], MatchOffset(ms, k);
      assert off in e.pieces && e.pieces[off] == MatchPiece(m);
      OffsetsGrow(ms, k, |ms|);
      NextMatchOffset(ms, k);
      ReadsFrom(e, ms, k + 1);
      assert off + MatchSize(m) == MatchOffset(ms, k + 1);
      assert ReadMatches(e, off) == Some([m] + ms[k + 1..]);
      assert [m] + ms[k + 1..] == ms[k..];
    } else {
      assert ms[k..] == [];
    }
  }

  /** Stepping through an entry from its header by match sizes meets all its matches in order, and ends just at
      its target, which ends just where the next entry begins. */
  lemma {:induction false} MatchesReadBack(e: Image, ms: seq<Match>, t: Target)
    requires Holds(e.pieces, ms, |ms|) && e.targetOffset == MatchOffset(ms, |ms|)
    requires e.nextOffset == EntrySize(Entry(e.ip, ms, t, ZERO_COUNTERS))
    ensures ReadMatches(e, ENTRY_SIZE) == Some(ms) && e.targetOffset + TargetSize(t) == e.nextOffset
  {
    assert ms[..0] == [] && ms[0..] == ms && ms[..|ms|] == ms;
    assert MatchOffset(ms, 0) == ENTRY_SIZE;
    ReadsFrom(e, ms, 0);
  }
}
