/** Bytes, fixed-size blocks and the helpers of internal/byteutil. */
module Bytes {

  type byte = bv8

  type Block = s: seq<byte> | |s| == 16 witness [0, 0, 0, 0, 0, 0, 0, 0, 0, 0, 0, 0, 0, 0, 0, 0]
  type Half = s: seq<byte> | |s| == 8 witness [0, 0, 0, 0, 0, 0, 0, 0]
  type Mac = s: seq<byte> | |s| == 6 witness [0, 0, 0, 0, 0, 0]
  type Sno = s: seq<byte> | |s| == 3 witness [0, 0, 0]
  type Pair = s: seq<byte> | |s| == 2 witness [0, 0]

  function Zeros(n: nat): (z: seq<byte>)
    ensures |z| == n
  {
    seq(n, _ => 0)
  }

  // ----- wrapping byte counters -----

  lemma IncrementWraps(b: byte)
    ensures (b + 1) as int == (b as int + 1) % 256
  {
    if b == 255 {
      assert b + 1 == 0;
    }
  }

  lemma ByteValueInjective(a: byte, b: byte)
    requires a as int == b as int
    ensures a == b
  {
  }

  lemma ModSuccessor(n: nat)
    ensures (n + 1) % 256 == (n % 256 + 1) % 256
  {
  }

  /** The byte a counter that starts at zero holds after n wrapping increments. */
  function ByteOf(n: nat): byte
  {
    if n == 0 then 0 else ByteOf(n - 1) + 1
  }

  /** That byte is n mod 256, which is also Go's byte(n). */
  lemma {:induction false} ByteOfValue(n: nat)
    ensures ByteOf(n) as int == n % 256
  {
    if n > 0 {
      ByteOfValue(n - 1);
      IncrementWraps(ByteOf(n - 1));
      ModSuccessor(n - 1);
    }
  }

  lemma ByteOfEqual(n: nat, m: nat)
    ensures ByteOf(n) == ByteOf(m) <==> n % 256 == m % 256
  {
    ByteOfValue(n);
    ByteOfValue(m);
    if n % 256 == m % 256 {
      ByteValueInjective(ByteOf(n), ByteOf(m));
    }
  }

  lemma ByteOfItself(b: byte)
    ensures ByteOf(b as nat) == b
  {
    ByteOfValue(b as nat);
    SmallModulus(b as nat);
    ByteValueInjective(ByteOf(b as nat), b);
  }

  lemma SmallModulus(n: nat)
    ensures n < 256 ==> n % 256 == n
  {
  }

  lemma ByteOfWraps(n: nat)
    ensures ByteOf(256 + n) == ByteOf(n)
  {
    ByteOfEqual(256 + n, n);
  }

  // ----- little-endian integers -----

  function Lo(v: bv16): byte { (v & 0xFF) as byte }

  function Hi(v: bv16): byte { (v >> 8) as byte }

  function Le16(lo: byte, hi: byte): bv16 { lo as bv16 | (hi as bv16 << 8) }

  /** The low byte comes first: a 16-bit number is 256 times its second byte plus its first. */
  lemma Le16Little(v: bv16, lo: byte, hi: byte)
    ensures v == Lo(v) as bv16 + 0x100 * Hi(v) as bv16
    ensures Le16(lo, hi) == lo as bv16 + 0x100 * hi as bv16
  {
  }

  lemma Le16RoundTrip(v: bv16)
    ensures Le16(Lo(v), Hi(v)) == v
  {
  }

  lemma Le16Bytes(lo: byte, hi: byte)
    ensures Lo(Le16(lo, hi)) == lo && Hi(Le16(lo, hi)) == hi
  {
  }

  function Le32Bytes(v: bv32): (s: seq<byte>)
    ensures |s| == 4
  {
    [(v & 0xFF) as byte, ((v >> 8) & 0xFF) as byte, ((v >> 16) & 0xFF) as byte, (v >> 24) as byte]
  }

  function Le32(s: seq<byte>): bv32
    requires |s| == 4
  {
    s[0] as bv32 | (s[1] as bv32 << 8) | (s[2] as bv32 << 16) | (s[3] as bv32 << 24)
  }

  lemma Le32Little(v: bv32)
    ensures var s := Le32Bytes(v);
            v == s[0] as bv32 + 0x100 * s[1] as bv32 + 0x1_0000 * s[2] as bv32 + 0x100_0000 * s[3] as bv32
  {
  }

  lemma Le32RoundTrip(v: bv32)
    ensures Le32(Le32Bytes(v)) == v
  {
  }

  lemma Le32OfBytes(a: byte, b: byte, c: byte, d: byte)
    ensures Le32Bytes(Le32([a, b, c, d])) == [a, b, c, d]
  {
  }

  // ----- blocks -----

  function Padded(s: seq<byte>): Block
  {
    seq(16, i requires 0 <= i < 16 => if i < |s| then s[i] else 0)
  }

  function Xored(a: Block, b: Block): Block
  {
    seq(16, i requires 0 <= i < 16 => a[i] ^ b[i])
  }

  function Reversed(b: Block): Block
  {
    seq(16, i requires 0 <= i < 16 => b[15 - i])
  }

  /** A short string is padded on the right with zeros, a long one is cut. */
  lemma PaddedIs(s: seq<byte>)
    ensures |s| <= 16 ==> Padded(s) == s + Zeros(16 - |s|)
    ensures |s| >= 16 ==> Padded(s) == s[..16]
  {
  }

  /** The bytes of a sequence from the last to the first. */
  function Backwards(s: seq<byte>): (r: seq<byte>)
    ensures |r| == |s|
  {
    if s == [] then [] else Backwards(s[1..]) + [s[0]]
  }

  lemma {:induction false} BackwardsAt(s: seq<byte>, k: nat)
    requires k < |s|
    ensures Backwards(s)[k] == s[|s| - 1 - k]
  {
    if k < |s| - 1 {
      BackwardsAt(s[1..], k);
    }
  }

  lemma ReversedIsBackwards(b: Block)
    ensures Reversed(b) == Backwards(b)
  {
    forall k | 0 <= k < 16
      ensures Reversed(b)[k] == Backwards(b)[k]
    {
      BackwardsAt(b, k);
    }
  }

  lemma XorCancels(a: byte, b: byte, c: byte)
    ensures (a ^ b) ^ b == a
    ensures b ^ a == b ^ c ==> a == c
  {
  }

  lemma XoredInjective(a: Block, b: Block, c: Block)
    requires Xored(a, b) == Xored(a, c)
    ensures b == c
  {
    forall i | 0 <= i < 16
      ensures b[i] == c[i]
    {
      assert Xored(a, b)[i] == Xored(a, c)[i];
      XorCancels(b[i], a[i], c[i]);
    }
  }

  lemma XoredCommutes(a: Block, b: Block)
    ensures Xored(a, b) == Xored(b, a)
  {
  }

  lemma ReversedTwice(b: Block)
    ensures Reversed(Reversed(b)) == b
  {
  }

  method Pad16(s: seq<byte>) returns (b: Block)
    ensures b == Padded(s)
    ensures forall k | 0 <= k < 16 :: b[k] == if k < |s| then s[k] else 0
  {
    var buf := new byte[16](_ => 0);
    var n := if |s| < 16 then |s| else 16;
    for i := 0 to n
      invariant forall k | 0 <= k < 16 :: buf[k] == if k < i then s[k] else 0
    {
      buf[i] := s[i];
    }
    b := buf[..];
  }

  method Xor16(a: Block, b: Block) returns (out: Block)
    ensures out == Xored(a, b)
    ensures forall k | 0 <= k < 16 :: out[k] == a[k] ^ b[k]
  {
    var buf := new byte[16](_ => 0);
    for i := 0 to 16
      invariant forall k | 0 <= k < i :: buf[k] == a[k] ^ b[k]
    {
      buf[i] := a[i] ^ b[i];
    }
    out := buf[..];
  }

  method Reverse16(b: Block) returns (out: Block)
    ensures out == Reversed(b)
    ensures forall k | 0 <= k < 16 :: out[k] == b[15 - k]
  {
    var buf := new byte[16](_ => 0);
    for i := 0 to 16
      invariant forall k | 0 <= k < i :: buf[k] == b[15 - k]
    {
      buf[i] := b[15 - i];
    }
    out := buf[..];
  }

  // ----- writing into buffers -----

  /** Writes the bytes of src into dst from offset at, as Go's copy does when they fit. */
  method CopyAt(dst: array<byte>, at: nat, src: seq<byte>)
    requires at + |src| <= dst.Length
    modifies dst
    ensures forall j | 0 <= j < dst.Length ::
        dst[j] == if at <= j < at + |src| then src[j - at] else old(dst[j])
  {
    for k := 0 to |src|
      invariant forall j | 0 <= j < dst.Length :: dst[j] == if at <= j < at + k then src[j - at] else old(dst[j])
    {
      dst[at + k] := src[k];
    }
  }

  method PutLE16(dst: array<byte>, at: nat, v: bv16)
    requires at + 2 <= dst.Length
    modifies dst
    ensures dst[at] == Lo(v) && dst[at + 1] == Hi(v)
    ensures forall j | 0 <= j < dst.Length && j != at && j != at + 1 :: dst[j] == old(dst[j])
  {
    dst[at] := Lo(v);
    dst[at + 1] := Hi(v);
  }

  // ----- XOR folds -----

  function Fold(s: seq<byte>): byte
  {
    if s == [] then 0 else Fold(s[..|s| - 1]) ^ s[|s| - 1]
  }

  method XorFold(s: seq<byte>) returns (x: byte)
    ensures x == Fold(s)
  {
    x := 0;
    for i := 0 to |s|
      invariant x == Fold(s[..i])
    {
      assert s[..i + 1][..i] == s[..i];
      x := x ^ s[i];
    }
    assert s[..|s|] == s;
  }

  lemma {:induction false} FoldConcat(a: seq<byte>, b: seq<byte>)
    ensures Fold(a + b) == Fold(a) ^ Fold(b)
  {
    if b == [] {
      assert a + b == a;
    } else {
      var m := |b| - 1;
      assert (a + b)[..|a + b| - 1] == a + b[..m];
      FoldConcat(a, b[..m]);
    }
  }

  lemma FoldOne(b: byte)
    ensures Fold([]) == 0 && Fold([b]) == b
  {
    assert [b][..0] == [];
  }

  /** A message followed by a checksum folds to zero exactly when the checksum is its fold. */
  lemma FoldWithChecksum(s: seq<byte>, sum: byte)
    ensures Fold(s + [sum]) == 0 <==> sum == Fold(s)
  {
    assert (s + [sum])[..|s|] == s;
  }

  /** Rewriting one byte changes the fold by exactly the difference of the two bytes. */
  lemma {:induction false} FoldUpdate(s: seq<byte>, i: nat, b: byte)
    requires i < |s|
    ensures Fold(s[i := b]) == Fold(s) ^ s[i] ^ b
  {
    var m := |s| - 1;
    if i == m {
      assert s[i := b][..m] == s[..m];
    } else {
      assert s[i := b][..m] == s[..m][i := b];
      FoldUpdate(s[..m], i, b);
    }
  }
}
