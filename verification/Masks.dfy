/** Address masks: the two ways in which the length of a 128-bit prefix is found, and masks as text. */
module Masks {
  import opened Seqs

  /** The bits of an unsigned integer, the most significant one first. */
  type Bits = seq<bool>

  type Word32 = w: Bits | |w| == 32 witness seq(32, _ => false)

  function Ones(n: nat): (b: Bits)
    ensures |b| == n
  {
    seq(n, _ => true)
  }

  function Noughts(n: nat): (b: Bits)
    ensures |b| == n
  {
    seq(n, _ => false)
  }

  /** `w << 1`, with `carry` as the new last bit. */
  function ShiftIn(w: Word32, carry: bool): Word32 { w[1..] + [carry] }

  /** A run of `n` ones and then noughts only. */
  ghost predicate IsPrefix(b: Bits, n: nat) {
    n <= |b| && forall i :: 0 <= i < |b| ==> (b[i] <==> i < n)
  }

  ghost predicate Contiguous(b: Bits) { exists n :: IsPrefix(b, n) }

  lemma {:induction false} PrefixIsUnique(b: Bits, m: nat, n: nat)
    requires IsPrefix(b, m) && IsPrefix(b, n)
    ensures m == n
  {
    assert m < |b| ==> (b[m] <==> m < n);
    assert n < |b| ==> (b[n] <==> n < m);
  }

  /** A nought before a one. */
  lemma {:induction false} NotContiguous(b: Bits, l: nat, i: nat)
    requires l < i < |b| && !b[l] && b[i]
    ensures !Contiguous(b)
  {
    forall n ensures !IsPrefix(b, n) {
      assert b[i] && !b[l];
    }
  }

  /** What both algorithms compute: the length of the prefix, or -1 if the bits are no prefix. */
  ghost predicate IsPrefixLength(b: Bits, r: int) {
    if r == -1 then !Contiguous(b) else r >= 0 && IsPrefix(b, r)
  }

  // --------------------------------------------------------------------------------- 128-bit prefixes

  /** An IPv6 address as four words in the order of the network. */
  datatype Ip6 = Ip6(a: Word32, b: Word32, c: Word32, d: Word32)

  function BitsOf6(x: Ip6): (r: Bits)
    ensures |r| == 128
  {
    x.a + x.b + x.c + x.d
  }

  function Word(x: Ip6, i: nat): Word32
    requires i < 4
  {
    if i == 0 then x.a else if i == 1 then x.b else if i == 2 then x.c else x.d
  }

  /** Bit `l`, picked out of its word. */
  function Bit6(x: Ip6, l: nat): (r: bool)
    requires l < 128
    ensures r == BitsOf6(x)[l]
  {
    Word(x, l / 32)[l % 32]
  }

  /** Goes along the bits: first to the end of the ones, then on in search of another one. */
  method PrefixLengthByBits(x: Ip6) returns (r: int)
    ensures IsPrefixLength(BitsOf6(x), r)
  {
    ghost var bits := BitsOf6(x);
    var l := 0;
    while l < 128
      invariant l <= 128 && forall i :: 0 <= i < l ==> bits[i]
    {
      if !Bit6(x, l) {
        break;
      }
      l := l + 1;
    }
    var i := l + 1;
    while i < 128
      invariant l < 128 ==> l < i <= 128
      invariant forall j :: l < j < i && j < 128 ==> !bits[j]
    {
      if Bit6(x, i) {
        NotContiguous(bits, l, i);
        return -1;
      }
      i := i + 1;
    }
    return l;
  }

  predicate IsZero(w: Word32) { forall i :: 0 <= i < 32 ==> !w[i] }

  /** Shifts the ones out at the front and then looks whether anything is left. */
  method PrefixLengthByShifts(x: Ip6) returns (r: int)
    ensures IsPrefixLength(BitsOf6(x), r)
  {
    hide BitsOf6, Shifted;
    ghost var all := BitsOf6(x);
    var bits, a, b, c, d := 0, x.a, x.b, x.c, x.d;
    ShiftedNone(all);
    ghost var y := x;
    while a[0]
      invariant y == Ip6(a, b, c, d)
      invariant bits <= 128 && (forall i :: 0 <= i < bits ==> all[i])
      invariant BitsOf6(y) == Shifted(all, bits)
      decreases 128 - bits
    {
      FirstBit(y);
      ShiftedFirst(all, bits);
      ShiftedOnce(all, bits);
      ShiftBits(y);
      a, b, c, d := ShiftIn(a, b[0]), ShiftIn(b, c[0]), ShiftIn(c, d[0]), ShiftIn(d, false);
      y := Ip6(a, b, c, d);
      bits := bits + 1;
    }
    FirstBit(y);
    ShiftedFirst(all, bits);
    if !IsZero(a) || !IsZero(b) || !IsZero(c) || !IsZero(d) {
      var i := SomeOne(y);
      ShiftedAt(all, bits, i);
      NotContiguous(all, bits, bits + i);
      return -1;
    }
    AllZero(y);
    forall i | bits <= i < 128 ensures !all[i] {
      ShiftedAt(all, bits, i - bits);
    }
    return bits;
  }

  lemma {:induction false} FirstBit(x: Ip6)
    ensures BitsOf6(x)[0] == x.a[0]
  {
  }

  /** One shift of all four words. */
  lemma {:induction false} ShiftBits(x: Ip6)
    ensures BitsOf6(Ip6(ShiftIn(x.a, x.b[0]), ShiftIn(x.b, x.c[0]), ShiftIn(x.c, x.d[0]), ShiftIn(x.d, false)))
         == BitsOf6(x)[1..] + [false]
  {
  }

  lemma {:induction false} ShiftedNone(all: Bits)
    requires |all| == 128
    ensures Shifted(all, 0) == all
  {
  }

  lemma {:induction false} ShiftedFirst(all: Bits, n: nat)
    requires |all| == 128 && n <= 128
    ensures Shifted(all, n)[0] == (n < 128 && all[n])
  {
  }

  lemma {:induction false} ShiftedAt(all: Bits, n: nat, i: nat)
    requires |all| == 128 && n <= 128 && i < 128
    ensures Shifted(all, n)[i] == (n + i < 128 && all[n + i])
  {
  }

  /** The bits after `n` shifts. */
  ghost function Shifted(all: Bits, n: nat): (b: Bits)
    requires |all| == 128 && n <= 128
    ensures |b| == 128
  {
    all[n..] + Noughts(n)
  }

  lemma {:induction false} ShiftedOnce(all: Bits, n: nat)
    requires |all| == 128 && n < 128
    ensures Shifted(all, n + 1) == Shifted(all, n)[1..] + [false]
  {
  }

  lemma {:induction false} SomeOne(x: Ip6) returns (i: nat)
    requires !IsZero(x.a) || !IsZero(x.b) || !IsZero(x.c) || !IsZero(x.d)
    ensures i < 128 && BitsOf6(x)[i]
  {
    if !IsZero(x.a) {
      i :| 0 <= i < 32 && x.a[i];
    } else if !IsZero(x.b) {
      var j :| 0 <= j < 32 && x.b[j];
      i := 32 + j;
    } else if !IsZero(x.c) {
      var j :| 0 <= j < 32 && x.c[j];
      i := 64 + j;
    } else {
      var j :| 0 <= j < 32 && x.d[j];
      i := 96 + j;
    }
  }

  lemma {:induction false} AllZero(x: Ip6)
    requires IsZero(x.a) && IsZero(x.b) && IsZero(x.c) && IsZero(x.d)
    ensures forall i :: 0 <= i < 128 ==> !BitsOf6(x)[i]
  {
  }

  /** The two algorithms agree on every address. */
  method PrefixLengthsAgree(x: Ip6) returns (m: int, n: int)
    ensures m == n && (m == -1 <==> !Contiguous(BitsOf6(x)))
  {
    m := PrefixLengthByBits(x);
    n := PrefixLengthByShifts(x);
    if m >= 0 && n >= 0 {
      PrefixIsUnique(BitsOf6(x), m, n);
    }
  }

  // ------------------------------------------------------------------------------------ numbers as text

  function Digit(d: nat): char
    requires d < 10
  {
    '0' + d as char
  }

  function Decimal(v: nat): (s: string)
    ensures |s| > 0
  {
    if v < 10 then [Digit(v)] else Decimal(v / 10) + [Digit(v % 10)]
  }

  /** What a digit counts in base 8, 10 or 16. */
  function DigitValue(c: char): nat {
    if '0' <= c <= '9' then c as nat - '0' as nat
    else if 'a' <= c <= 'f' then c as nat - 'a' as nat + 10
    else if 'A' <= c <= 'F' then c as nat - 'A' as nat + 10
    else 16
  }

  /** A run of digits, all of it. */
  function Digits(s: string, base: nat): Option<nat> {
    if s == "" then Some(0)
    else match Digits(s[..|s| - 1], base)
      case None => None
      case Some(v) =>
        if DigitValue(s[|s| - 1]) < base then Some(v * base + DigitValue(s[|s| - 1])) else None
  }

  /** A number as C writes it, up to `max`: hexadecimal after `0x`, octal after `0`, else decimal. */
  function Number(s: string, max: nat): (r: Option<nat>)
    ensures r.Some? ==> r.value <= max
  {
    var v := if s == "" then None
             else if |s| > 2 && s[0] == '0' && (s[1] == 'x' || s[1] == 'X') then Digits(s[2..], 16)
             else if s[0] == '0' then Digits(s, 8)
             else Digits(s, 10);
    if v.Some? && v.value <= max then v else None
  }

  lemma {:induction false} DecimalDigits(v: nat)
    ensures Digits(Decimal(v), 10) == Some(v)
    ensures v > 0 ==> Decimal(v)[0] != '0'
    ensures forall i :: 0 <= i < |Decimal(v)| ==> '0' <= Decimal(v)[i] <= '9'
  {
    if v < 10 {
      assert Decimal(v)[..0] == "";
    } else {
      DecimalDigits(v / 10);
      assert Decimal(v)[..|Decimal(v)| - 1] == Decimal(v / 10);
    }
  }

  lemma {:induction false} NumberOfDecimal(v: nat, max: nat)
    requires v <= max
    ensures Number(Decimal(v), max) == Some(v)
  {
    DecimalDigits(v);
    if v == 0 {
      assert Decimal(0)[..0] == "";
      assert Digits(Decimal(0), 8) == Some(0);
    }
  }

  /** How numbers are read: by place value, in base 16 behind `0x`, in base 8 behind `0`, and else in base 10; a
      character that is no digit of the base spoils the whole. */
  lemma {:induction false} NumbersAsInC(s: string, c: char, v: nat, base: nat)
    requires Digits(s, base) == Some(v)
    ensures '0' <= c <= '9' && c as int - 48 < base ==> Digits(s + [c], base) == Some(v * base + (c as int - 48))
    ensures 'a' <= c <= 'f' && base == 16 ==> Digits(s + [c], base) == Some(v * 16 + (c as int - 87))
    ensures 'A' <= c <= 'F' && base == 16 ==> Digits(s + [c], base) == Some(v * 16 + (c as int - 55))
    ensures base <= 10 && !('0' <= c <= '9') ==> Digits(s + [c], base) == None
    ensures base == 8 && (c == '8' || c == '9') ==> Digits(s + [c], base) == None
    ensures s != "" && base == 16 ==> Number("0x" + s, v) == Some(v) && Number("0X" + s, v) == Some(v)
    ensures s != "" && base == 8 ==> Number("0" + s, v) == Some(v)
    ensures s != "" && s[0] != '0' && base == 10 ==> Number(s, v) == Some(v)
    ensures s != "" && s[0] != '0' && base == 10 && v > 0 ==> Number(s, v - 1) == None
  {
    assert (s + [c])[..|s|] == s;
    assert ("0x" + s)[2..] == s && ("0X" + s)[2..] == s;
    if s != "" && base == 8 {
      LeadingNought(s);
    }
  }

  lemma {:induction false} LeadingNought(s: string)
    requires Digits(s, 8).Some?
    ensures Digits("0" + s, 8) == Digits(s, 8) && (s != "" ==> s[0] != 'x' && s[0] != 'X')
  {
    if s == "" {
      assert ("0" + s)[..0] == "";
    } else {
      LeadingNought(s[..|s| - 1]);
      assert ("0" + s)[..|s|] == "0" + s[..|s| - 1];
    }
  }

  // ------------------------------------------------------------------------------------ bytes of a mask

  /** The value of a run of bits. */
  function Value(b: Bits): nat {
    if b == [] then 0 else 2 * Value(b[..|b| - 1]) + if b[|b| - 1] then 1 else 0
  }

  function BitsOf(v: nat, n: nat): (b: Bits)
    ensures |b| == n
  {
    if n == 0 then [] else BitsOf(v / 2, n - 1) + [v % 2 == 1]
  }

  function Power2(n: nat): nat { if n == 0 then 1 else 2 * Power2(n - 1) }

  lemma {:induction false} ValueBits(b: Bits)
    ensures BitsOf(Value(b), |b|) == b && Value(b) < Power2(|b|)
  {
    if b != [] { ValueBits(b[..|b| - 1]); }
  }

  function Byte(w: Word32, i: nat): (v: nat)
    requires i < 4
    ensures v <= 255 && BitsOf(v, 8) == w[8 * i..8 * i + 8]
  {
    ValueBits(w[8 * i..8 * i + 8]);
    assert Power2(8) == 256;
    Value(w[8 * i..8 * i + 8])
  }

  function Dotted(w: Word32): string {
    Decimal(Byte(w, 0)) + "." + Decimal(Byte(w, 1)) + "." + Decimal(Byte(w, 2)) + "." + Decimal(Byte(w, 3))
  }

  function WordOf(bytes: seq<nat>): Word32
    requires |bytes| == 4
  {
    BitsOf(bytes[0], 8) + BitsOf(bytes[1], 8) + BitsOf(bytes[2], 8) + BitsOf(bytes[3], 8)
  }

  lemma {:induction false} BitsValue(v: nat, n: nat)
    requires v < Power2(n)
    ensures Value(BitsOf(v, n)) == v
  {
    if n > 0 {
      BitsValue(v / 2, n - 1);
      assert BitsOf(v, n)[..n - 1] == BitsOf(v / 2, n - 1);
    }
  }

  lemma {:induction false} ByteIs(w: Word32, i: nat, v: nat)
    requires i < 4 && v <= 255 && w[8 * i..8 * i + 8] == BitsOf(v, 8)
    ensures Byte(w, i) == v
  {
    assert Power2(8) == 256;
    BitsValue(v, 8);
  }

  /** The bytes of a mask are written with the most significant one first. */
  lemma {:induction false} DottedInOrder(a: nat, b: nat, c: nat, d: nat)
    requires a <= 255 && b <= 255 && c <= 255 && d <= 255
    ensures Dotted(BitsOf(a, 8) + BitsOf(b, 8) + BitsOf(c, 8) + BitsOf(d, 8))
         == Decimal(a) + "." + Decimal(b) + "." + Decimal(c) + "." + Decimal(d)
    ensures a >= 128 ==> BitsOf(a, 8)[0]
  {
    var w: Word32 := BitsOf(a, 8) + BitsOf(b, 8) + BitsOf(c, 8) + BitsOf(d, 8);
    hide Byte, Decimal;
    ByteIs(w, 0, a);
    ByteIs(w, 1, b);
    ByteIs(w, 2, c);
    ByteIs(w, 3, d);
    assert Power2(7) == 128 && Power2(8) == 256;
    HighBit(a, 8);
  }

  lemma {:induction false} HighBit(v: nat, n: nat)
    requires n > 0 && v < Power2(n)
    ensures BitsOf(v, n)[0] <==> v >= Power2(n - 1)
  {
    if n > 1 {
      HighBit(v / 2, n - 1);
      assert BitsOf(v, n)[0] == BitsOf(v / 2, n - 1)[0];
    }
  }

  // ------------------------------------------------------------------------------------- masks as text

  /** Looks for the mask among the prefixes, longest first; bits that are no prefix are written out. */
  method IpmaskToNumeric(mask: Word32) returns (text: string)
    ensures text == MaskText(mask)
  {
    if mask == Ones(32) {
      PrefixFits(mask, 32);
      return "";
    }
    var i, bits := 31, Ones(31) + [false];
    while i >= 0 && mask != bits
      invariant -1 <= i < 32
      invariant i >= 0 ==> bits == Ones(i) + Noughts(32 - i)
      invariant forall n: nat :: i < n <= 32 ==> !IsPrefix(mask, n)
      decreases i
    {
      PrefixFits(mask, i);
      i := i - 1;
      bits := ShiftIn(bits, false);
    }
    if i >= 0 {
      PrefixFits(mask, i);
      TextOfPrefix(mask, i);
      return "/" + Decimal(i);
    }
    return "/" + Dotted(mask);
  }

  lemma {:induction false} PrefixFits(mask: Word32, n: nat)
    requires n <= 32
    ensures IsPrefix(mask, n) <==> mask == Ones(n) + Noughts(32 - n)
    ensures n == 32 ==> Ones(n) + Noughts(32 - n) == Ones(32)
  {
  }

  /** A mask as text: nothing for a single address, the length of a prefix, or all bytes. */
  ghost function MaskText(mask: Word32): string {
    if mask == Ones(32) then ""
    else if Contiguous(mask) then
      var n :| IsPrefix(mask, n);
      "/" + Decimal(n)
    else "/" + Dotted(mask)
  }

  lemma {:induction false} TextOfPrefix(mask: Word32, n: nat)
    requires IsPrefix(mask, n) && mask != Ones(32)
    ensures MaskText(mask) == "/" + Decimal(n)
  {
    var m :| IsPrefix(mask, m) && MaskText(mask) == "/" + Decimal(m);
    PrefixIsUnique(mask, m, n);
  }

  /** The first dot. */
  function Dot(s: string): (q: Option<nat>)
    ensures q.Some? ==> q.value < |s| && s[q.value] == '.' && forall i :: 0 <= i < q.value ==> s[i] != '.'
    ensures q.None? ==> '.' !in s
  {
    if s == "" then None
    else if s[0] == '.' then Some(0)
    else match Dot(s[1..])
      case None => None
      case Some(q) => Some(q + 1)
  }

  /** `n` numbers up to 255 with dots in between. */
  function Parts(s: string, n: nat): (r: Option<seq<nat>>)
    requires n > 0
    ensures r.Some? ==> |r.value| == n
  {
    if n == 1 then
      match Number(s, 255)
      case None => None
      case Some(v) => Some([v])
    else
      match Dot(s)
      case None => None
      case Some(q) =>
        match Number(s[..q], 255)
        case None => None
        case Some(v) =>
          match Parts(s[q + 1..], n - 1)
          case None => None
          case Some(rest) => Some([v] + rest)
  }

  /** Bytes read so far, and those still to come, if they can be read. */
  function Behind(bytes: seq<nat>, rest: Option<seq<nat>>): Option<seq<nat>> {
    match rest
    case None => None
    case Some(more) => Some(bytes + more)
  }

  lemma {:induction false} BehindOneMore(bytes: seq<nat>, v: nat, rest: Option<seq<nat>>)
    ensures Behind(bytes, Behind([v], rest)) == Behind(bytes + [v], rest)
    ensures Behind([], rest) == rest
  {
    if rest.Some? { assert bytes + ([v] + rest.value) == (bytes + [v]) + rest.value && [] + rest.value == rest.value; }
  }

  /** How one more number is read. */
  lemma {:induction false} ReadOn(all: Option<seq<nat>>, bytes: seq<nat>, s: string, n: nat)
    requires n > 1 && all == Behind(bytes, Parts(s, n))
    ensures match Dot(s)
      case None => all == None
      case Some(q) =>
        (match Number(s[..q], 255)
         case None => all == None
         case Some(v) => all == Behind(bytes + [v], Parts(s[q + 1..], n - 1)))
  {
    hide Number, Dot;
    if Dot(s).Some? && Number(s[..Dot(s).value], 255).Some? {
      BehindOneMore(bytes, Number(s[..Dot(s).value], 255).value, Parts(s[Dot(s).value + 1..], n - 1));
    }
  }

  /** How the last number is read. */
  lemma {:induction false} ReadLast(all: Option<seq<nat>>, bytes: seq<nat>, s: string)
    requires all == Behind(bytes, Parts(s, 1))
    ensures all == match Number(s, 255) case None => None case Some(v) => Some(bytes + [v])
  {
    hide Number;
  }

  /** Only the first 19 characters are looked at. */
  function Clipped(s: string): string { if |s| > 19 then s[..19] else s }

  /** Reads four bytes with dots in between. */
  method NumericToIpmask(dotted: string) returns (r: Option<Word32>)
    ensures r == match Parts(Clipped(dotted), 4) case None => None case Some(bytes) => Some(WordOf(bytes))
  {
    var p, bytes, i := Clipped(dotted), [], 0;
    ghost var all := Parts(p, 4);
    BehindOneMore([], 0, all);
    while i < 3
      invariant i <= 3 && |bytes| == i && all == Behind(bytes, Parts(p, 4 - i))
    {
      ReadOn(all, bytes, p, 4 - i);
      var q := Dot(p);
      if q.None? {
        return None;
      }
      var onebyte := Number(p[..q.value], 255);
      if onebyte.None? {
        return None;
      }
      bytes := bytes + [onebyte.value];
      p := p[q.value + 1..];
      i := i + 1;
    }
    ReadLast(all, bytes, p);
    var last := Number(p, 255);
    return match last
      case None => None
      case Some(v) => Some(WordOf(bytes + [v]));
  }

  /** What a mask's text is read as. */
  function MaskRead(mask: Option<string>): Option<Word32> {
    match mask
    case None => Some(Ones(32))
    case Some(s) =>
      match Parts(Clipped(s), 4)
      case Some(bytes) => Some(WordOf(bytes))
      case None =>
        match Number(s, 32)
        case None => None
        case Some(bits) => Some(Ones(bits) + Noughts(32 - bits))
  }

  method ParseIpmask(mask: Option<string>) returns (r: Option<Word32>)
    ensures r == MaskRead(mask)
  {
    if mask.None? {
      return Some(Ones(32));
    }
    r := NumericToIpmask(mask.value);
    if r.Some? {
      return;
    }
    var bits := Number(mask.value, 32);
    if bits.None? {
      return None;
    }
    if bits.value != 0 {
      return Some(Ones(bits.value) + Noughts(32 - bits.value));
    }
    assert Ones(0) + Noughts(32) == Noughts(32);
    return Some(Noughts(32));
  }

  /** What stands behind the slash, if there is one. */
  function BehindSlash(text: string): Option<string> {
    if text == "" then None else Some(text[1..])
  }

  lemma {:induction false} DecimalLength(v: nat)
    requires v <= 255
    ensures |Decimal(v)| <= 3 && '.' !in Decimal(v)
  {
    DecimalDigits(v);
    var tens := v / 10;
    assert v >= 10 ==> |Decimal(v)| == |Decimal(tens)| + 1;
    assert tens >= 10 ==> |Decimal(tens)| == |Decimal(tens / 10)| + 1;
  }

  lemma {:induction false} DotBehind(a: string, rest: string)
    requires '.' !in a
    ensures Dot(a + "." + rest) == Some(|a|)
    ensures (a + "." + rest)[..|a|] == a && (a + "." + rest)[|a| + 1..] == rest
  {
    var s := a + "." + rest;
    assert s[|a|] == '.' && forall i :: 0 <= i < |a| ==> s[i] == a[i];
  }

  /** One byte in front. */
  lemma {:induction false} PartsNext(v: nat, rest: string, n: nat, vs: seq<nat>)
    requires v <= 255 && n > 0 && Parts(rest, n) == Some(vs)
    ensures Parts(Decimal(v) + "." + rest, n + 1) == Some([v] + vs)
  {
    DecimalLength(v);
    DotBehind(Decimal(v), rest);
    NumberOfDecimal(v, 255);
    hide Number, Decimal;
  }

  /** Four numbers in dotted form. */
  function Quad(a: nat, b: nat, c: nat, d: nat): string {
    Decimal(a) + "." + (Decimal(b) + "." + (Decimal(c) + "." + Decimal(d)))
  }

  lemma {:induction false} QuadRead(a: nat, b: nat, c: nat, d: nat)
    requires a <= 255 && b <= 255 && c <= 255 && d <= 255
    ensures |Quad(a, b, c, d)| <= 15 && Parts(Quad(a, b, c, d), 4) == Some([a, b, c, d])
  {
    DecimalLength(a);
    DecimalLength(b);
    DecimalLength(c);
    DecimalLength(d);
    NumberOfDecimal(d, 255);
    assert Parts(Decimal(d), 1) == Some([d]);
    hide Decimal, Parts;
    PartsNext(c, Decimal(d), 1, [d]);
    assert [c] + [d] == [c, d];
    PartsNext(b, Decimal(c) + "." + Decimal(d), 2, [c, d]);
    assert [b] + [c, d] == [b, c, d];
    PartsNext(a, Decimal(b) + "." + (Decimal(c) + "." + Decimal(d)), 3, [b, c, d]);
    assert [a] + [b, c, d] == [a, b, c, d];
  }

  lemma {:induction false} DottedIsQuad(w: Word32)
    ensures Dotted(w) == Quad(Byte(w, 0), Byte(w, 1), Byte(w, 2), Byte(w, 3))
  {
    hide Decimal, Byte;
    var a, b, c, d := Decimal(Byte(w, 0)), Decimal(Byte(w, 1)), Decimal(Byte(w, 2)), Decimal(Byte(w, 3));
    assert a + "." + b + "." + c + "." + d == a + "." + (b + "." + (c + "." + d));
  }

  lemma {:induction false} DottedRead(w: Word32)
    ensures MaskRead(Some(Dotted(w))) == Some(w)
  {
    DottedIsQuad(w);
    hide Dotted, Quad, Byte, Parts, WordOf;
    QuadRead(Byte(w, 0), Byte(w, 1), Byte(w, 2), Byte(w, 3));
    BytesMakeWord(w);
  }

  lemma {:induction false} BytesMakeWord(w: Word32)
    ensures WordOf([Byte(w, 0), Byte(w, 1), Byte(w, 2), Byte(w, 3)]) == w
  {
    assert w == w[0..8] + w[8..16] + w[16..24] + w[24..32];
  }

  lemma {:induction false} PrefixRead(n: nat)
    requires n <= 32
    ensures MaskRead(Some(Decimal(n))) == Some(Ones(n) + Noughts(32 - n))
  {
    DecimalLength(n);
    NumberOfDecimal(n, 32);
    hide Decimal, Number;
  }

  /** Reading the text of any mask gives the mask back. */
  lemma {:induction false} MaskRoundTrip(mask: Word32)
    ensures MaskRead(BehindSlash(MaskText(mask))) == Some(mask)
  {
    hide Decimal, Dotted, MaskRead;
    if mask == Ones(32) {
      NoSlash();
    } else if Contiguous(mask) {
      var n :| IsPrefix(mask, n) && MaskText(mask) == "/" + Decimal(n);
      PrefixFits(mask, n);
      PrefixRead(n);
      assert ("/" + Decimal(n))[1..] == Decimal(n);
    } else {
      DottedRead(mask);
      assert ("/" + Dotted(mask))[1..] == Dotted(mask);
    }
  }

  lemma {:induction false} NoSlash()
    ensures MaskRead(None) == Some(Ones(32))
  {
  }

  /** The text is the length of a prefix exactly if the ones are contiguous. */
  lemma {:induction false} PrefixNotation(mask: Word32)
    ensures '.' !in MaskText(mask) <==> Contiguous(mask)
  {
    hide Decimal;
    if mask == Ones(32) {
      PrefixFits(mask, 32);
    } else if Contiguous(mask) {
      var n :| IsPrefix(mask, n) && MaskText(mask) == "/" + Decimal(n);
      DecimalLength(n);
    } else {
      assert Dotted(mask)[|Decimal(Byte(mask, 0))|] == '.';
    }
  }
}
