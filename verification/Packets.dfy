/** What the header of a rule asks of a packet, and why rules that compare equal ask the same. */
module Packets {
  import opened Names
  import opened Seqs
  import opened Rulesets
  import opened Editing

  /** What a rule can ask of a packet: its addresses, the interfaces it has (no name before one has been chosen), its
      protocol, its destination port, and whether it is a later fragment. */
  datatype Packet = Packet(src: bv32, dst: bv32, inIface: Interface, outIface: Interface, proto: nat, dport: nat,
                           fragment: bool)

  predicate InterfaceMatches(name: Interface, mask: Interface, actual: Interface) {
    forall i :: 0 <= i < 16 ==> BitsAgree(actual[i], name[i], mask[i])
  }

  function Under(mask: bv32, a: bv32): bv32 { a & mask }

  /** A condition as it is asked: turned round if its bit is set among the inversion flags. */
  predicate Asked(invFlags: nat, bit: nat, holds: bool)
    requires bit > 0
  {
    holds == (invFlags / bit % 2 == 0)
  }

  /** How the kernel compares a header with a packet. */
  predicate HeaderMatches(ip: Ip, p: Packet) {
    && Asked(ip.invFlags, 0x08, Under(ip.srcMask, p.src) == ip.src)
    && Asked(ip.invFlags, 0x10, Under(ip.dstMask, p.dst) == ip.dst)
    && Asked(ip.invFlags, 0x01, InterfaceMatches(ip.inIface, ip.inMask, p.inIface))
    && Asked(ip.invFlags, 0x02, InterfaceMatches(ip.outIface, ip.outMask, p.outIface))
    && (ip.proto == 0 || Asked(ip.invFlags, 0x40, p.proto == ip.proto))
    && Asked(ip.invFlags, 0x20, ip.flags % 2 == 0 || p.fragment)
  }

  /** A header without inverted conditions that does not ask for fragments. */
  lemma {:induction false} PlainHeaderMatches(ip: Ip, p: Packet)
    requires ip.invFlags == 0 && ip.flags == 0
    ensures HeaderMatches(ip, p) <==>
      && Under(ip.srcMask, p.src) == ip.src && Under(ip.dstMask, p.dst) == ip.dst
      && InterfaceMatches(ip.inIface, ip.inMask, p.inIface) && InterfaceMatches(ip.outIface, ip.outMask, p.outIface)
      && (ip.proto == 0 || p.proto == ip.proto)
  {
    hide InterfaceMatches, Under;
  }

  // --------------------------------------------------------------------------------- equal headers

  /** Interface names that agree under equal masks are asked for alike. */
  lemma {:induction false} BitAskedAlike(a: bv8, b: bv8, mask: bv8, x: bv8)
    requires a & mask == b & mask
    ensures BitsAgree(x, a, mask) <==> BitsAgree(x, b, mask)
  {
  }

  lemma {:induction false} InterfaceAskedAlike(a: Interface, b: Interface, mask: Interface, x: Interface)
    requires forall i :: 0 <= i < 16 ==> a[i] & mask[i] == b[i] & mask[i]
    ensures InterfaceMatches(a, mask, x) <==> InterfaceMatches(b, mask, x)
  {
    forall i | 0 <= i < 16 ensures BitsAgree(x[i], a[i], mask[i]) <==> BitsAgree(x[i], b[i], mask[i]) {
      BitAskedAlike(a[i], b[i], mask[i], x[i]);
    }
  }

  lemma {:induction false} SameLengths(a: Bytes, b: Bytes, mask: Bytes, off: nat)
    requires SameBytes(a, b, mask, off)
    ensures |a| == |b|
  {
  }

  /** Rules that compare equal have equal headers, field by field, but for the bytes of interface names that no mask
      asks for. */
  lemma {:induction false} SameFields(a: Rule, b: Rule, mask: Bytes)
    requires Same(a, b, mask)
    ensures a.ip.src == b.ip.src && a.ip.srcMask == b.ip.srcMask
    ensures a.ip.dst == b.ip.dst && a.ip.dstMask == b.ip.dstMask
    ensures a.ip.proto == b.ip.proto && a.ip.flags == b.ip.flags && a.ip.invFlags == b.ip.invFlags
    ensures a.ip.inMask == b.ip.inMask && a.ip.outMask == b.ip.outMask
    ensures forall i :: 0 <= i < 16 ==> a.ip.inIface[i] & a.ip.inMask[i] == b.ip.inIface[i] & a.ip.inMask[i]
    ensures forall i :: 0 <= i < 16 ==> a.ip.outIface[i] & a.ip.outMask[i] == b.ip.outIface[i] & a.ip.outMask[i]
    ensures |a.matches| == |b.matches| && a.targetSize == b.targetSize
    ensures forall k :: 0 <= k < |a.matches| ==> a.matches[k].name == b.matches[k].name
                                                 && |a.matches[k].data| == |b.matches[k].data|
  {
    hide SameInterface, SameBytes, SameAction;
    InterfacesAgree(a.ip.inIface, a.ip.inMask, b.ip.inIface, b.ip.inMask);
    InterfacesAgree(a.ip.outIface, a.ip.outMask, b.ip.outIface, b.ip.outMask);
    forall k | 0 <= k < |a.matches| ensures |a.matches[k].data| == |b.matches[k].data| {
      SameLengths(a.matches[k].data, b.matches[k].data, mask,
                  ENTRY_SIZE + MatchesSize(a.matches[..k]) + HEADER_SIZE);
    }
  }

  /** Rules that compare equal, under whatever mask, ask the same of every packet's header. */
  lemma {:induction false} SameAskSame(a: Rule, b: Rule, mask: Bytes, p: Packet)
    requires Same(a, b, mask)
    ensures HeaderMatches(a.ip, p) <==> HeaderMatches(b.ip, p)
  {
    SameFields(a, b, mask);
    InterfaceAskedAlike(a.ip.inIface, b.ip.inIface, a.ip.inMask, p.inIface);
    InterfaceAskedAlike(a.ip.outIface, b.ip.outIface, a.ip.outMask, p.outIface);
    hide Same, InterfaceMatches, Under, Asked;
  }

  // ------------------------------------------------------------------------------------- equal rules

  /** A mask with every bit set. */
  predicate IsFullMask(mask: Bytes) { forall i :: 0 <= i < |mask| ==> mask[i] == 0xFF }

  lemma {:induction false} FullBits(x: bv8, y: bv8)
    ensures BitsAgree(x, y, 0xFF) <==> x == y
  {
  }

  lemma {:induction false} FullMaskBytes(a: Bytes, b: Bytes, mask: Bytes, off: nat)
    requires IsFullMask(mask) && SameBytes(a, b, mask, off)
    ensures a == b
  {
    forall i | 0 <= i < |a| ensures a[i] == b[i] {
      assert BitsAgree(a[i], b[i], mask[off + i]);
      FullBits(a[i], b[i]);
    }
  }

  /** Under a full mask, rules that compare equal match the same packets and do the same with them. */
  lemma {:induction false} FullMaskComparesAll(a: Rule, b: Rule, mask: Bytes)
    requires IsFullMask(mask) && Same(a, b, mask)
    ensures a.matches == b.matches && a.action == b.action && a.targetSize == b.targetSize
    ensures forall p :: HeaderMatches(a.ip, p) <==> HeaderMatches(b.ip, p)
  {
    forall p ensures HeaderMatches(a.ip, p) <==> HeaderMatches(b.ip, p) {
      SameAskSame(a, b, mask, p);
    }
    hide SameBytes, SameIp, IsFullMask, MatchesSize, HeaderMatches;
    forall k | 0 <= k < |a.matches| ensures a.matches[k] == b.matches[k] {
      FullMaskBytes(a.matches[k].data, b.matches[k].data, mask, ENTRY_SIZE + MatchesSize(a.matches[..k]) + HEADER_SIZE);
    }
    if a.action.Extension? && b.action.Extension? {
      FullMaskBytes(a.action.data, b.action.data, mask, ENTRY_SIZE + MatchesSize(a.matches) + HEADER_SIZE);
    }
  }

  /** Where the mask lies: byte `i` of match `k` is compared under the mask's byte at the place of that byte in the
      entry, behind the header of the entry, the matches before it and its own header; so are the bytes of an
      extension's target, behind all matches. */
  lemma {:induction false} MaskLiesOver(a: Rule, b: Rule, mask: Bytes)
    requires Same(a, b, mask)
    ensures forall k, i :: 0 <= k < |a.matches| && 0 <= i < |a.matches[k].data| ==>
      112 + MatchesSize(a.matches[..k]) + 32 + i < |mask| && i < |b.matches[k].data|
      && (a.matches[k].data[i] ^ b.matches[k].data[i]) & mask[112 + MatchesSize(a.matches[..k]) + 32 + i] == 0
    ensures a.action.Extension? ==>
      && b.action.Extension? && a.action.name == b.action.name && |a.action.data| == |b.action.data|
      && 112 + MatchesSize(a.matches) + 32 + |a.action.data| <= |mask|
      && forall i :: 0 <= i < |a.action.data| ==>
           (a.action.data[i] ^ b.action.data[i]) & mask[112 + MatchesSize(a.matches) + 32 + i] == 0
    ensures !a.action.Extension? ==> a.action == b.action
  {
    hide MatchesSize, SameIp;
    forall k, i | 0 <= k < |a.matches| && 0 <= i < |a.matches[k].data|
      ensures 112 + MatchesSize(a.matches[..k]) + 32 + i < |mask| && i < |b.matches[k].data|
      ensures BitsAgree(a.matches[k].data[i], b.matches[k].data[i],
                        mask[112 + MatchesSize(a.matches[..k]) + 32 + i])
    {
      assert SameBytes(a.matches[k].data, b.matches[k].data, mask, 112 + MatchesSize(a.matches[..k]) + 32);
    }
  }
}
