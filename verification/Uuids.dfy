/** UUID text: the printer of ble/ids.go and the parser of ble/adapter_linux.go.

  Go strings are byte strings, so text is a sequence of ASCII bytes here.
 */
module Uuids {
  import opened Bytes
  import opened Results

  type Uuid = Block

  const DASH: byte := 0x2D

  /** The digits 0 to 9 and a to f. */
  const HEX: seq<byte> := [0x30, 0x31, 0x32, 0x33, 0x34, 0x35, 0x36, 0x37, 0x38, 0x39,
                           0x61, 0x62, 0x63, 0x64, 0x65, 0x66]

  function HexDigit(v: byte): byte
    requires v < 16
  {
    if v < 10 then 0x30 + v else 0x61 + (v - 10)
  }

  lemma HexTable(v: byte)
    requires v < 16
    ensures 0 <= v as int < 16 && HEX[v as int] == HexDigit(v)
  {
    if v == 0 {} else if v == 1 {} else if v == 2 {} else if v == 3 {} else if v == 4 {} else if v == 5 {}
    else if v == 6 {} else if v == 7 {} else if v == 8 {} else if v == 9 {} else if v == 10 {}
    else if v == 11 {} else if v == 12 {} else if v == 13 {} else if v == 14 {} else {}
  }

  /** Indexing the digit string, as the printer does. */
  method LookUp(v: byte) returns (c: byte)
    requires v < 16
    ensures c == HexDigit(v)
  {
    HexTable(v);
    c := HEX[v as int];
  }

  predicate IsHex(c: byte)
  {
    0x30 <= c <= 0x39 || 0x61 <= c <= 0x66 || 0x41 <= c <= 0x46
  }

  function HexValue(c: byte): byte
    requires IsHex(c)
  {
    if c <= 0x39 then c - 0x30 else if c >= 0x61 then c - 0x61 + 10 else c - 0x41 + 10
  }

  /** Lower case of a hex digit. */
  function Lower(c: byte): byte { if 0x41 <= c <= 0x46 then c + 0x20 else c }

  lemma HexDigitValue(v: byte)
    requires v < 16
    ensures IsHex(HexDigit(v)) && HexValue(HexDigit(v)) == v && HexDigit(v) != DASH
  {
  }

  lemma HexValueDigit(c: byte)
    requires IsHex(c)
    ensures HexValue(c) < 16 && HexDigit(HexValue(c)) == Lower(c) && c != DASH
  {
  }

  function High(b: byte): (v: byte)
    ensures v < 16
  {
    b >> 4
  }

  function Low(b: byte): (v: byte)
    ensures v < 16
  {
    b & 0x0F
  }

  function Joined(hi: byte, lo: byte): byte { (hi << 4) | lo }

  // ----- printing -----

  /** The 32 digits of a UUID, most significant first. */
  function Digits(u: Uuid): (d: seq<byte>)
    ensures |d| == 32
  {
    seq(32, k requires 0 <= k < 32 => HexDigit(if k % 2 == 0 then High(u[k / 2]) else Low(u[k / 2])))
  }

  lemma DigitsAt(u: Uuid, i: nat)
    requires i < 16
    ensures Digits(u)[2 * i] == HexDigit(High(u[i]))
    ensures Digits(u)[2 * i + 1] == HexDigit(Low(u[i]))
  {
    assert (2 * i) % 2 == 0 && (2 * i) / 2 == i && (2 * i + 1) % 2 == 1 && (2 * i + 1) / 2 == i;
  }

  /** Character j of the canonical form of 32 digits. */
  function DashedChar(d: seq<byte>, j: nat): byte
    requires |d| == 32 && j < 36
  {
    if j == 8 || j == 13 || j == 18 || j == 23 then DASH
    else if j < 8 then d[j] else if j < 13 then d[j - 1] else if j < 18 then d[j - 2]
    else if j < 23 then d[j - 3] else d[j - 4]
  }

  function Dashed(d: seq<byte>): (s: seq<byte>)
    requires |d| == 32
    ensures |s| == 36
  {
    seq(36, j requires 0 <= j < 36 => DashedChar(d, j))
  }

  /** The canonical form groups the digits 8-4-4-4-12. */
  lemma DashedParts(d: seq<byte>)
    requires |d| == 32
    ensures Dashed(d) == d[..8] + [DASH] + d[8..12] + [DASH] + d[12..16] + [DASH] + d[16..20] + [DASH] + d[20..]
  {
  }

  function Printed(u: Uuid): seq<byte> { Dashed(Digits(u)) }

  /** Where digit k of the 32 stands in the text. */
  function TextIndex(k: nat): nat
  {
    k + (if k >= 8 then 1 else 0) + (if k >= 12 then 1 else 0) + (if k >= 16 then 1 else 0) + (if k >= 20 then 1 else 0)
  }

  lemma DashedAt(d: seq<byte>, k: nat)
    requires |d| == 32 && k < 32
    ensures TextIndex(k) < 36 && Dashed(d)[TextIndex(k)] == d[k]
    ensures Dashed(d)[8] == Dashed(d)[13] == Dashed(d)[18] == Dashed(d)[23] == DASH
  {
    if k < 8 {
    } else if k < 12 {
    } else if k < 16 {
    } else if k < 20 {
    } else {
    }
  }

  predicate DashBefore(i: nat) { i == 4 || i == 6 || i == 8 || i == 10 }

  /** Where the printer stands when it comes to byte i. */
  function Position(i: nat): int
  {
    if DashBefore(i) then TextIndex(2 * i) - 1 else TextIndex(2 * i)
  }

  lemma TextStep(i: nat)
    requires i < 16
    ensures TextIndex(2 * i + 1) == TextIndex(2 * i) + 1
    ensures TextIndex(2 * i) + 2 == Position(i + 1) <= 36
    ensures DashBefore(i) ==> TextIndex(2 * i) - 1 in {8, 13, 18, 23}
  {
  }

  /** Text p has the two digits of b at the place of byte i, and a dash before them if one belongs there. */
  ghost predicate ByteInText(p: seq<byte>, i: nat, b: byte)
    requires i < 16 && |p| == 36
  {
    var j := TextIndex(2 * i);
    && j + 2 == Position(i + 1) <= 36
    && (DashBefore(i) ==> p[j - 1] == DASH)
    && p[j] == HexDigit(High(b)) && p[j + 1] == HexDigit(Low(b))
  }

  lemma PrintedAt(u: Uuid, i: nat)
    requires i < 16
    ensures ByteInText(Printed(u), i, u[i])
  {
    var d := Digits(u);
    TextStep(i);
    DashedAt(d, 2 * i);
    DashedAt(d, 2 * i + 1);
    DigitsAt(u, i);
  }

  /** The positions 0 to n - 1 in order. */
  ghost function Upto(n: nat): seq<int> { seq(n, k => k) }

  lemma UptoStep(n: nat)
    ensures Upto(n) + [n] == Upto(n + 1)
  {
  }

  /** The printer, with a record of the buffer positions in the order it writes them: each of the 36
      positions once, from left to right. */
  method String(u: Uuid) returns (s: seq<byte>, ghost writes: seq<int>)
    ensures s == Printed(u)
    ensures writes == Upto(36)
  {
    ghost var want := Printed(u);
    forall i | 0 <= i < 16
      ensures ByteInText(want, i, u[i])
    {
      PrintedAt(u, i);
    }
    s, writes := Print(u, want);
  }

  method Print(u: Uuid, ghost want: seq<byte>) returns (s: seq<byte>, ghost writes: seq<int>)
    requires |want| == 36 && forall i | 0 <= i < 16 :: ByteInText(want, i, u[i])
    ensures s == want
    ensures writes == Upto(36)
  {
    var buf := new byte[36](_ => 0);
    var j := 0;
    writes := [];
    for i := 0 to 16
      invariant 0 <= j == Position(i) <= 36
      invariant writes == Upto(j)
      invariant forall k | 0 <= k < j :: buf[k] == want[k]
    {
      assert ByteInText(want, i, u[i]);
      if i == 4 || i == 6 || i == 8 || i == 10 {
        j, writes := PutDash(buf, j, want, writes);
      }
      j, writes := PutHex(buf, j, u[i], want, writes);
    }
    s := buf[..];
  }

  /** A dash, next in the text that is wanted. */
  method PutDash(buf: array<byte>, j: nat, ghost want: seq<byte>, ghost writes: seq<int>)
    returns (next: nat, ghost writes': seq<int>)
    requires j < buf.Length <= |want| && writes == Upto(j)
    requires forall k | 0 <= k < j :: buf[k] == want[k]
    requires want[j] == DASH
    modifies buf
    ensures next == j + 1 && writes' == Upto(next)
    ensures forall k | 0 <= k < next :: buf[k] == want[k]
  {
    buf[j] := DASH;
    UptoStep(j);
    writes' := writes + [j];
    next := j + 1;
  }

  /** The two digits of one byte, next in the text that is wanted. */
  method PutHex(buf: array<byte>, j: nat, b: byte, ghost want: seq<byte>, ghost writes: seq<int>)
    returns (next: nat, ghost writes': seq<int>)
    requires j + 2 <= buf.Length <= |want| && writes == Upto(j)
    requires forall k | 0 <= k < j :: buf[k] == want[k]
    requires want[j] == HexDigit(High(b)) && want[j + 1] == HexDigit(Low(b))
    modifies buf
    ensures next == j + 2 && writes' == Upto(next)
    ensures forall k | 0 <= k < next :: buf[k] == want[k]
  {
    var hi := LookUp(High(b));
    var lo := LookUp(Low(b));
    buf[j] := hi;
    buf[j + 1] := lo;
    UptoStep(j);
    UptoStep(j + 1);
    writes' := writes + [j];
    writes' := writes' + [j + 1];
    next := j + 2;
  }

  // ----- parsing -----

  /** Every dash removed, as strings.ReplaceAll does. */
  function Stripped(s: seq<byte>): seq<byte>
  {
    if s == [] then []
    else (if s[0] == DASH then [] else [s[0]]) + Stripped(s[1..])
  }

  predicate AllHex(s: seq<byte>) { forall k | 0 <= k < |s| :: IsHex(s[k]) }

  /** Digit k is the first that is not hex. */
  predicate FirstBad(d: seq<byte>, k: nat)
  {
    k < |d| && !IsHex(d[k]) && forall i | 0 <= i < k :: IsHex(d[i])
  }

  function Bytes16(d: seq<byte>): Uuid
    requires |d| == 32 && AllHex(d)
  {
    seq(16, i requires 0 <= i < 16 => Joined(HexValue(d[2 * i]), HexValue(d[2 * i + 1])))
  }

  /** A byte variable that a callee writes through its address. */
  class Cell {
    var value: byte
    constructor () { value := 0; }
  }

  method HexByte(c: byte, out: Cell) returns (error: Option<Error>)
    modifies out
    ensures IsHex(c) ==> error == None && out.value == HexValue(c)
    ensures !IsHex(c) ==> error == Some(BadHex(c)) && out.value == old(out.value)
  {
    if c >= 0x30 && c <= 0x39 {
      out.value := c - 0x30;
    } else if c >= 0x61 && c <= 0x66 {
      out.value := c - 0x61 + 10;
    } else if c >= 0x41 && c <= 0x46 {
      out.value := c - 0x41 + 10;
    } else {
      return Some(BadHex(c));
    }
    return None;
  }

  /** What parsing a string comes to: refuse a wrong number of digits, then the first bad digit. */
  ghost predicate ParsesTo(s: seq<byte>, r: Result<Uuid>)
  {
    var d := Stripped(s);
    if |d| != 32 then r == Failure(BadUuid)
    else if AllHex(d) then r == Success(Bytes16(d))
    else exists k: nat :: FirstBad(d, k) && r == Failure(BadHex(d[k]))
  }

  method ParseUuidString(text: seq<byte>) returns (r: Result<Uuid>)
    ensures ParsesTo(text, r)
  {
    var s := Stripped(text);
    if |s| != 32 {
      return Failure(BadUuid);
    }
    var out := new byte[16](_ => 0);
    var hi := new Cell();
    var lo := new Cell();
    for i := 0 to 16
      invariant forall k | 0 <= k < 2 * i :: IsHex(s[k])
      invariant forall k | 0 <= k < i :: ByteAt(s, k, out[k])
    {
      var error := HexByte(s[2 * i], hi);
      if error.Some? {
        assert FirstBad(s, 2 * i);
        return Failure(error.value);
      }
      error := HexByte(s[2 * i + 1], lo);
      if error.Some? {
        assert FirstBad(s, 2 * i + 1);
        return Failure(error.value);
      }
      out[i] := Joined(hi.value, lo.value);
      assert ByteAt(s, i, out[i]);
    }
    assert out[..] == Bytes16(s);
    return Success(out[..]);
  }

  ghost predicate ByteAt(s: seq<byte>, k: nat, b: byte)
  {
    && 2 * k + 1 < |s| && IsHex(s[2 * k]) && IsHex(s[2 * k + 1])
    && b == Joined(HexValue(s[2 * k]), HexValue(s[2 * k + 1]))
  }

  // ----- printing and parsing undo each other -----

  lemma {:induction false} StrippedConcat(a: seq<byte>, b: seq<byte>)
    ensures Stripped(a + b) == Stripped(a) + Stripped(b)
  {
    if a == [] {
      assert a + b == b;
    } else {
      assert (a + b)[1..] == a[1..] + b;
      StrippedConcat(a[1..], b);
    }
  }

  lemma {:induction false} StrippedClean(s: seq<byte>)
    requires forall k | 0 <= k < |s| :: s[k] != DASH
    ensures Stripped(s) == s
  {
    if s != [] {
      StrippedClean(s[1..]);
    }
  }

  /** Putting a dash between two texts puts nothing into what is left without dashes. */
  lemma StrippedJoin(a: seq<byte>, b: seq<byte>)
    requires forall k | 0 <= k < |b| :: b[k] != DASH
    ensures Stripped(a + [DASH] + b) == Stripped(a) + b
  {
    var dash := [DASH];
    assert Stripped(dash) == [];
    StrippedClean(b);
    StrippedConcat(a, dash);
    StrippedConcat(a + dash, b);
  }

  /** Dashes put in at the canonical places come out again. */
  lemma StrippedDashed(d: seq<byte>)
    requires |d| == 32 && forall k | 0 <= k < 32 :: d[k] != DASH
    ensures Stripped(Dashed(d)) == d
  {
    DashedParts(d);
    var a, b, c, e, f := d[..8], d[8..12], d[12..16], d[16..20], d[20..];
    StrippedClean(a);
    StrippedJoin(a, b);
    StrippedJoin(a + [DASH] + b, c);
    StrippedJoin(a + [DASH] + b + [DASH] + c, e);
    StrippedJoin(a + [DASH] + b + [DASH] + c + [DASH] + e, f);
    assert a + b + c + e + f == d;
  }

  lemma NibblesRoundTrip(b: byte)
    ensures Joined(High(b), Low(b)) == b
  {
  }

  lemma NibblesSplit(hi: byte, lo: byte)
    requires hi < 16 && lo < 16
    ensures High(Joined(hi, lo)) == hi && Low(Joined(hi, lo)) == lo
  {
  }

  lemma DigitsClean(u: Uuid)
    ensures AllHex(Digits(u)) && forall k | 0 <= k < 32 :: Digits(u)[k] != DASH
  {
    forall k | 0 <= k < 32
      ensures IsHex(Digits(u)[k]) && Digits(u)[k] != DASH
    {
      HexDigitValue(if k % 2 == 0 then High(u[k / 2]) else Low(u[k / 2]));
    }
  }

  lemma BytesOfDigits(u: Uuid)
    requires AllHex(Digits(u))
    ensures Bytes16(Digits(u)) == u
  {
    var d := Digits(u);
    forall i | 0 <= i < 16
      ensures Bytes16(d)[i] == u[i]
    {
      HexDigitValue(High(u[i]));
      HexDigitValue(Low(u[i]));
      DigitsAt(u, i);
      NibblesRoundTrip(u[i]);
    }
  }

  /** Parsing a printed UUID gives it back, and nothing else. */
  lemma ParsePrinted(u: Uuid, r: Result<Uuid>)
    ensures ParsesTo(Printed(u), r) <==> r == Success(u)
  {
    DigitsClean(u);
    BytesOfDigits(u);
    StrippedDashed(Digits(u));
  }

  function Lowered(d: seq<byte>): (l: seq<byte>)
    ensures |l| == |d|
  {
    seq(|d|, k requires 0 <= k < |d| => Lower(d[k]))
  }

  lemma DigitsOfBytes(d: seq<byte>)
    requires |d| == 32 && AllHex(d)
    ensures Digits(Bytes16(d)) == Lowered(d)
  {
    forall k | 0 <= k < 32
      ensures Digits(Bytes16(d))[k] == Lower(d[k])
    {
      var i := k / 2;
      HexValueDigit(d[2 * i]);
      HexValueDigit(d[2 * i + 1]);
      NibblesSplit(HexValue(d[2 * i]), HexValue(d[2 * i + 1]));
      assert k == 2 * i || k == 2 * i + 1;
    }
  }

  /** A string of any length and dash placement is accepted exactly when 32 hex digits are left of
      it without its dashes; printing the result gives those digits in lower case, with the dashes
      at the canonical places. */
  lemma PrintParsed(s: seq<byte>, r: Result<Uuid>)
    requires ParsesTo(s, r)
    ensures r.Success? <==> |Stripped(s)| == 32 && AllHex(Stripped(s))
    ensures r.Success? ==> Printed(r.value) == Dashed(Lowered(Stripped(s)))
  {
    if r.Success? {
      DigitsOfBytes(Stripped(s));
    }
  }

  /** Two accepted strings name the same UUID exactly when they agree up to dashes and case. */
  lemma SameUuid(s: seq<byte>, t: seq<byte>, u: Uuid, v: Uuid)
    requires ParsesTo(s, Success(u)) && ParsesTo(t, Success(v))
    ensures u == v <==> Lowered(Stripped(s)) == Lowered(Stripped(t))
  {
    DigitsOfBytes(Stripped(s));
    DigitsOfBytes(Stripped(t));
    DigitsClean(u);
    DigitsClean(v);
    BytesOfDigits(u);
    BytesOfDigits(v);
  }

  // ----- what the text and the bytes stand for -----

  const HEX_UPPER: seq<byte> := [0x41, 0x42, 0x43, 0x44, 0x45, 0x46]

  /** The hex digits are 0 to 9, a to f and A to F, worth 0 to 15 in this order. */
  lemma HexDigits(c: byte, v: byte)
    ensures IsHex(c) <==> c in HEX || c in HEX_UPPER
    ensures v < 16 ==> HexDigit(v) == HEX[v as int]
    ensures v < 10 ==> IsHex(0x30 + v) && HexValue(0x30 + v) == v
    ensures 10 <= v < 16 ==> IsHex(0x57 + v) && HexValue(0x57 + v) == v && IsHex(0x37 + v) && HexValue(0x37 + v) == v
  {
    if v < 16 {
      HexTable(v);
    }
    if IsHex(c) {
      HexValueDigit(c);
      HexTable(HexValue(c));
    }
  }

  /** A byte string as a number, the most significant byte first. */
  function Number(u: seq<byte>): nat
  {
    if u == [] then 0 else 256 * Number(u[..|u| - 1]) + u[|u| - 1] as nat
  }

  /** A string of hex digits as a number. */
  function HexNumber(d: seq<byte>): nat
    requires AllHex(d)
  {
    if d == [] then 0 else 16 * HexNumber(d[..|d| - 1]) + HexValue(d[|d| - 1]) as nat
  }

  lemma TwoNibbles(hi: byte, lo: byte)
    requires hi < 16 && lo < 16
    ensures Joined(hi, lo) as int == 16 * (hi as int) + lo as int
  {
  }

  lemma OneDigit(d: seq<byte>, a: byte)
    requires AllHex(d) && IsHex(a)
    ensures AllHex(d + [a]) && HexNumber(d + [a]) == 16 * HexNumber(d) + HexValue(a) as nat
  {
    assert (d + [a])[..|d|] == d;
  }

  lemma OneByte(u: seq<byte>, b: byte)
    ensures Number(u + [b]) == 256 * Number(u) + b as nat
  {
    assert (u + [b])[..|u|] == u;
  }

  /** One byte more, and its two digits. */
  lemma TwoDigits(d: seq<byte>, u: seq<byte>, a: byte, b: byte)
    requires AllHex(d) && IsHex(a) && IsHex(b) && Number(u) == HexNumber(d)
    ensures AllHex(d + [a] + [b])
    ensures Number(u + [Joined(HexValue(a), HexValue(b))]) == HexNumber(d + [a] + [b])
  {
    OneDigit(d, a);
    OneDigit(d + [a], b);
    OneByte(u, Joined(HexValue(a), HexValue(b)));
    HexValueDigit(a);
    HexValueDigit(b);
    TwoNibbles(HexValue(a), HexValue(b));
  }

  lemma NextByte(d: seq<byte>, i: nat)
    requires |d| == 32 && AllHex(d) && i < 16
    ensures Bytes16(d)[..i + 1] == Bytes16(d)[..i] + [Joined(HexValue(d[2 * i]), HexValue(d[2 * i + 1]))]
    ensures d[..2 * (i + 1)] == d[..2 * i] + [d[2 * i]] + [d[2 * i + 1]]
  {
  }

  lemma NumberStep(d: seq<byte>, i: nat)
    requires |d| == 32 && AllHex(d) && i < 16 && Number(Bytes16(d)[..i]) == HexNumber(d[..2 * i])
    ensures Number(Bytes16(d)[..i + 1]) == HexNumber(d[..2 * (i + 1)])
  {
    var (u, done) := (Bytes16(d)[..i], d[..2 * i]);
    NextByte(d, i);
    TwoDigits(done, u, d[2 * i], d[2 * i + 1]);
  }

  lemma {:induction false} NumberSoFar(d: seq<byte>, i: nat)
    requires |d| == 32 && AllHex(d) && i <= 16
    ensures Number(Bytes16(d)[..i]) == HexNumber(d[..2 * i])
  {
    if i > 0 {
      NumberSoFar(d, i - 1);
      NumberStep(d, i - 1);
    }
  }

  /** An accepted text names the number its hex digits write. */
  lemma ParsedNumber(s: seq<byte>, u: Uuid)
    requires ParsesTo(s, Success(u))
    ensures AllHex(Stripped(s)) && Number(u) == HexNumber(Stripped(s))
  {
    var d := Stripped(s);
    NumberSoFar(d, 16);
    assert u[..16] == u && d[..32] == d;
  }

  /** A printed text writes the number of its UUID, the most significant digit first. */
  lemma PrintedNumber(u: Uuid)
    ensures AllHex(Stripped(Printed(u))) && HexNumber(Stripped(Printed(u))) == Number(u)
  {
    ParsePrinted(u, Success(u));
    ParsedNumber(Printed(u), u);
  }

  /** Stripping leaves out the dashes and nothing else: it is determined by what it does to single
      characters and by going along with concatenation. */
  lemma StrippedIs(a: seq<byte>, c: byte)
    ensures Stripped([]) == []
    ensures Stripped(a + [c]) == Stripped(a) + if c == 0x2D then [] else [c]
  {
    StrippedConcat(a, [c]);
    assert [c][1..] == [];
  }
}
