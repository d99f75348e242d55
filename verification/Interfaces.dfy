/** Interface names as they are configured: how a name is turned into a padded name and a mask, and which interfaces it
    stands for. */
module Interfaces {
  import opened Seqs
  import opened Rulesets
  import opened Walk
  import opened Packets
  import opened Mangle
  import opened Fate

  const PLUS: bv8 := 0x2B

  /** The characters of a zero-terminated string that fits into an interface name with its terminator. */
  predicate IsName(arg: Bytes) { 0 !in arg && |arg| <= 15 }

  function Padded(arg: Bytes): Interface
    requires |arg| <= 15
  {
    arg + Zeros(16 - |arg|)
  }

  /** How many bytes of a name are compared: none for the empty name and a lone plus sign, all before a plus sign at the
      end, and else the whole name with its terminator. */
  function Compared(arg: Bytes): (n: nat)
    ensures n <= |arg| + 1
  {
    if arg == [] || arg == [PLUS] then 0 else if arg[|arg| - 1] == PLUS then |arg| - 1 else |arg| + 1
  }

  function MaskOf(arg: Bytes): (m: Interface)
    requires |arg| <= 15
    ensures forall i :: 0 <= i < 16 ==> m[i] == if i < Compared(arg) then 0xFF else 0
  {
    seq(16, i requires 0 <= i < 16 => if i < Compared(arg) then 0xFF else 0)
  }

  // ----------------------------------------------------------------------------------- in place

  /** Sets `n` bytes from `from` on. */
  method SetBytes(a: array<bv8>, from: nat, x: bv8, n: nat)
    requires from + n <= a.Length
    modifies a
    ensures forall i :: 0 <= i < a.Length ==> a[i] == if from <= i < from + n then x else old(a[i])
  {
    var k := 0;
    while k < n
      invariant k <= n
      invariant forall i :: 0 <= i < a.Length ==> a[i] == if from <= i < from + k then x else old(a[i])
    {
      a[from + k] := x;
      k := k + 1;
    }
  }

  method CopyName(arg: Bytes, a: array<bv8>)
    requires |arg| <= a.Length
    modifies a
    ensures forall i :: 0 <= i < a.Length ==> a[i] == if i < |arg| then arg[i] else old(a[i])
  {
    var k := 0;
    while k < |arg|
      invariant k <= |arg|
      invariant forall i :: 0 <= i < a.Length ==> a[i] == if i < k then arg[i] else old(a[i])
    {
      a[k] := arg[k];
      k := k + 1;
    }
  }

  /** Fills in the name and the mask of a header; a name without room for its terminator is refused. */
  method ParseInterface(arg: Bytes, vianame: array<bv8>, mask: array<bv8>) returns (ok: bool)
    requires 0 !in arg && vianame.Length == mask.Length == 16 && vianame != mask
    modifies vianame, mask
    ensures ok <==> IsName(arg)
    ensures ok ==> vianame[..] == Padded(arg) && mask[..] == MaskOf(arg)
  {
    var vialen := |arg|;
    SetBytes(mask, 0, 0, 16);
    SetBytes(vianame, 0, 0, 16);
    if vialen + 1 > 16 {
      return false;
    }
    CopyName(arg, vianame);
    if vialen == 0 || (vialen == 1 && vianame[0] == PLUS) {
      SetBytes(mask, 0, 0, 16);
    } else if vianame[vialen - 1] == PLUS {
      SetBytes(mask, 0, 0xFF, vialen - 1);
      SetBytes(mask, vialen - 1, 0, 16 - vialen + 1);
    } else {
      SetBytes(mask, 0, 0xFF, vialen + 1);
      SetBytes(mask, vialen + 1, 0, 16 - vialen - 1);
    }
    assert arg == [PLUS] <==> |arg| == 1 && arg[0] == PLUS;
    assert forall i :: 0 <= i < 16 ==> mask[i] == if i < Compared(arg) then 0xFF else 0;
    assert vianame[..] == Padded(arg) && mask[..] == MaskOf(arg);
    return true;
  }

  // -------------------------------------------------------------------------------- what it stands for

  /** The configured name stands for this interface: the empty name and a plus sign for every one, a name that ends in a
      plus sign for those that begin like it, and any other name for itself. */
  predicate StandsFor(arg: Bytes, name: Bytes) {
    arg == [] || (arg[|arg| - 1] == 0x2B && arg[..|arg| - 1] <= name) || arg == name
  }

  /** The masks that are filled in compare just so. */
  lemma {:induction false} ParsedMatches(arg: Bytes, name: Bytes)
    requires IsName(arg) && IsName(name)
    ensures InterfaceMatches(Padded(arg), MaskOf(arg), Padded(name)) <==> StandsFor(arg, name)
  {
    var n := Compared(arg);
    forall i | 0 <= i < 16
      ensures BitsAgree(Padded(name)[i], Padded(arg)[i], MaskOf(arg)[i])
         <==> (i < n ==> Padded(name)[i] == Padded(arg)[i])
    {
      BitFacts(Padded(name)[i], Padded(arg)[i], 0, 0);
    }
    FirstBytes(arg, name, n);
  }

  lemma {:induction false} NoZero(arg: Bytes)
    requires 0 !in arg
    ensures forall j :: 0 <= j < |arg| ==> arg[j] != 0
  {
  }

  lemma {:induction false} FirstBytes(arg: Bytes, name: Bytes, n: nat)
    requires IsName(arg) && IsName(name) && n == Compared(arg)
    ensures (forall i :: 0 <= i < n ==> Padded(name)[i] == Padded(arg)[i]) <==> StandsFor(arg, name)
  {
    if forall i :: 0 <= i < n ==> Padded(name)[i] == Padded(arg)[i] {
      NoZero(arg);
      NoZero(name);
      assert Padded(name)[|name|] == 0 && Padded(arg)[|arg|] == 0;
      forall i | 0 <= i < n && i < |arg| ensures name[i] == arg[i] {
        assert Padded(name)[i] == Padded(arg)[i];
      }
      assert n == |arg| + 1 ==> name == arg;
    }
  }

  /** The name of the loopback interface, parsed. */
  lemma {:induction false} LoIsParsed()
    ensures LO == Padded([0x6C, 0x6F]) && LO_MASK == MaskOf([0x6C, 0x6F])
    ensures NO_INTERFACE == Padded([]) == MaskOf([])
  {
    assert Compared([0x6C, 0x6F]) == 3 && Compared([]) == 0;
  }

  /** The jump of a firewall that is configured with these two names takes just the TCP packets whose input and output
      interfaces they stand for. */
  lemma {:induction false} ConfiguredJump(s: Setup, inArg: Bytes, outArg: Bytes, p: Packet, inName: Bytes,
                                          outName: Bytes)
    requires IsName(inArg) && IsName(outArg) && IsName(inName) && IsName(outName)
    requires s.inIface == Padded(inArg) && s.inMask == MaskOf(inArg)
    requires s.outIface == Padded(outArg) && s.outMask == MaskOf(outArg)
    requires p.inIface == Padded(inName) && p.outIface == Padded(outName)
    ensures Holds(s, JumpRule(s).ip, JumpRule(s).matches, p) <==>
      p.proto == 6 && StandsFor(inArg, inName) && StandsFor(outArg, outName)
  {
    JumpMatches(s, p);
    ParsedMatches(inArg, inName);
    ParsedMatches(outArg, outName);
    hide Holds, InterfaceMatches, StandsFor;
  }
}
