/** The packet cipher of crypto/crypto.go over an uninterpreted AES.

  AES-128 (FIPS 197) is a library of the original, so every definition here takes it as a
  function from a key and a block to a block. `Invertible` is required only where a property
  depends on it. The block layouts are the repository's own, not those of RFC 3610.
 */
module PacketCipher {
  import opened Bytes
  import opened Results

  type Aes = (Block, Block) -> Block

  /** AES is a permutation of blocks under every key. */
  ghost predicate Invertible(aes: Aes)
  {
    forall k, x, y :: aes(k, x) == aes(k, y) ==> x == y
  }

  function ReversedAes(aes: Aes, key: Block, plaintext: Block): Block
  {
    Reversed(aes(Reversed(key), Reversed(plaintext)))
  }

  lemma ReversedAesInjective(aes: Aes, key: Block, x: Block, y: Block)
    requires Invertible(aes)
    ensures ReversedAes(aes, key, x) == ReversedAes(aes, key, y) <==> x == y
  {
    if ReversedAes(aes, key, x) == ReversedAes(aes, key, y) {
      ReversedTwice(aes(Reversed(key), Reversed(x)));
      ReversedTwice(aes(Reversed(key), Reversed(y)));
      ReversedTwice(x);
      ReversedTwice(y);
    }
  }

  /** The Telink convention is AES seen through byte reversal of key, input and output. */
  lemma ReversedAesConjugates(aes: Aes, key: Block, x: Block)
    ensures ReversedAes(aes, Reversed(key), Reversed(x)) == Reversed(aes(key, x))
  {
    ReversedTwice(key);
    ReversedTwice(x);
  }

  /** Key and plaintext go in backwards, and the result comes out backwards. */
  lemma ReversedAesBackwards(aes: Aes, key: Block, x: Block)
    ensures ReversedAes(aes, key, x) == Backwards(aes(Backwards(key), Backwards(x)))
  {
    ReversedIsBackwards(key);
    ReversedIsBackwards(x);
    ReversedIsBackwards(aes(Reversed(key), Reversed(x)));
  }

  /** A cipher that rotates to the left rotates to the right once it is reversed. */
  lemma ReversedRotation(key: Block, x: Block)
    ensures var rotate: Aes := (k: Block, y: Block) => y[1..] + [y[0]];
            ReversedAes(rotate, key, x) == [x[15]] + x[..15]
  {
    var y := Reversed(x);
    var z: Block := y[1..] + [y[0]];
    forall i | 0 <= i < 16
      ensures Reversed(z)[i] == ([x[15]] + x[..15])[i]
    {
      if i > 0 {
        assert z[15 - i] == y[16 - i] == x[i - 1];
      }
    }
  }

  /** With a block cipher that undoes AES, the same reversals undo the reversed cipher. */
  lemma ReversedAesUndone(aes: Aes, inverse: Aes, key: Block, x: Block)
    requires forall k: Block, y: Block :: inverse(k, aes(k, y)) == y
    ensures ReversedAes(inverse, key, ReversedAes(aes, key, x)) == x
  {
    ReversedTwice(aes(Reversed(key), Reversed(x)));
    ReversedTwice(x);
  }

  // ----- nonces -----

  function CommandNonce(mac: Mac, sno: Sno): Half
  {
    [mac[5], mac[4], mac[3], mac[2], 0x01, sno[0], sno[1], sno[2]]
  }

  function NotificationNonce(mac: Mac, sno: Sno, src: bv16): Half
  {
    [mac[5], mac[4], mac[3], sno[0], sno[1], sno[2], Lo(src), Hi(src)]
  }

  /** A command nonce is the low four bytes of the address backwards, a one, and the sno; a
      notification nonce is the low three backwards, the sno, and the source. */
  lemma NonceLayouts(mac: Mac, sno: Sno, src: bv16)
    ensures CommandNonce(mac, sno) == Backwards(mac[2..]) + [0x01] + sno
    ensures NotificationNonce(mac, sno, src) == Backwards(mac[3..]) + sno + [Lo(src), Hi(src)]
  {
    assert mac[2..][1..] == mac[3..] && mac[3..][1..] == mac[4..] && mac[4..][1..] == mac[5..];
    assert mac[5..] == [mac[5]] && Backwards([mac[5]]) == [mac[5]];
    assert Backwards(mac[4..]) == [mac[5], mac[4]];
    assert Backwards(mac[3..]) == [mac[5], mac[4], mac[3]];
  }

  lemma CommandNonceInjective(mac: Mac, a: Sno, b: Sno)
    ensures CommandNonce(mac, a) == CommandNonce(mac, b) <==> a == b
  {
    var p, q := CommandNonce(mac, a), CommandNonce(mac, b);
    assert p[5] == a[0] && p[6] == a[1] && p[7] == a[2];
    assert q[5] == b[0] && q[6] == b[1] && q[7] == b[2];
    if p == q {
      assert a == b;
    }
  }

  lemma NotificationNonceInjective(mac: Mac, a: Sno, src: bv16, b: Sno, dst: bv16)
    ensures NotificationNonce(mac, a, src) == NotificationNonce(mac, b, dst) <==> a == b && src == dst
  {
    var p, q := NotificationNonce(mac, a, src), NotificationNonce(mac, b, dst);
    assert p[3] == a[0] && p[4] == a[1] && p[5] == a[2] && p[6] == Lo(src) && p[7] == Hi(src);
    assert q[3] == b[0] && q[4] == b[1] && q[5] == b[2] && q[6] == Lo(dst) && q[7] == Hi(dst);
    Le16RoundTrip(src);
    Le16RoundTrip(dst);
    if p == q {
      assert a == b;
    }
  }

  // ----- CBC-MAC -----

  function ChunkCount(n: nat): nat { (n + 15) / 16 }

  /** The j-th 16-byte chunk of the data, zero-padded on the right. */
  function Chunk(data: seq<byte>, j: nat): Block
  {
    seq(16, k requires 0 <= k < 16 => if 16 * j + k < |data| then data[16 * j + k] else 0)
  }

  function FirstBlock(nonce: Half, n: nat): Block
  {
    nonce + [ByteOf(n)] + Zeros(7)
  }

  /** The full 16-byte CBC-MAC state after the first j chunks. */
  function MacState(aes: Aes, sk: Block, nonce: Half, data: seq<byte>, j: nat): Block
  {
    if j == 0 then ReversedAes(aes, sk, FirstBlock(nonce, |data|))
    else ReversedAes(aes, sk, Xored(MacState(aes, sk, nonce, data, j - 1), Chunk(data, j - 1)))
  }

  function FullMac(aes: Aes, sk: Block, nonce: Half, data: seq<byte>): Block
  {
    MacState(aes, sk, nonce, data, ChunkCount(|data|))
  }

  function MacTag(aes: Aes, sk: Block, nonce: Half, data: seq<byte>): Pair
  {
    FullMac(aes, sk, nonce, data)[..2]
  }

  /** The MAC state with the first o bytes of chunk c XORed into it. */
  ghost function Absorbed(m: Block, data: seq<byte>, c: nat, o: nat): Block
    requires o < 16 && 16 * c + o <= |data|
  {
    seq(16, k requires 0 <= k < 16 => if k < o then m[k] ^ data[16 * c + k] else m[k])
  }

  /** What the byte loop holds after i bytes: finished chunks encrypted, the open one XORed in. */
  ghost function LoopState(aes: Aes, sk: Block, nonce: Half, data: seq<byte>, i: nat): Block
    requires i <= |data|
  {
    if i % 16 == 0 || i == |data| then MacState(aes, sk, nonce, data, ChunkCount(i))
    else Absorbed(MacState(aes, sk, nonce, data, i / 16), data, i / 16, i % 16)
  }

  /** XORing one more byte into the state extends the open chunk, or completes it. */
  lemma AbsorbByte(m: Block, data: seq<byte>, c: nat, o: nat, s: Block, s': Block)
    requires o < 16 && 16 * c + o < |data|
    requires s == Absorbed(m, data, c, o)
    requires s' == s[o := s[o] ^ data[16 * c + o]]
    ensures o == 15 || 16 * c + o == |data| - 1 ==> s' == Xored(m, Chunk(data, c))
    ensures o < 15 ==> s' == Absorbed(m, data, c, o + 1)
  {
    if o == 15 || 16 * c + o == |data| - 1 {
      forall k | 0 <= k < 16
        ensures s'[k] == Xored(m, Chunk(data, c))[k]
      {
        if k > o {
          assert Chunk(data, c)[k] == 0;
        }
      }
    }
  }

  lemma LoopStateStep(aes: Aes, sk: Block, nonce: Half, data: seq<byte>, i: nat, s: Block, s': Block)
    requires i < |data|
    requires s == LoopState(aes, sk, nonce, data, i)
    requires s' == s[i % 16 := s[i % 16] ^ data[i]]
    ensures LoopState(aes, sk, nonce, data, i + 1)
         == if i % 16 == 15 || i == |data| - 1 then ReversedAes(aes, sk, s') else s'
  {
    var c, o := i / 16, i % 16;
    var m := MacState(aes, sk, nonce, data, c);
    assert i == 16 * c + o;
    assert s == Absorbed(m, data, c, o);
    AbsorbByte(m, data, c, o, s, s');
    if o == 15 || i == |data| - 1 {
      assert ChunkCount(i + 1) == c + 1;
    } else {
      assert (i + 1) / 16 == c && (i + 1) % 16 == o + 1;
    }
  }

  /** A zeroed 16-byte buffer with the nonce copied in at an offset. */
  method BlockWithNonce(nonce: Half, at: nat) returns (b: Block)
    requires at <= 8
    ensures b == Zeros(at) + nonce + Zeros(8 - at)
  {
    var buf := new byte[16](_ => 0);
    for k := 0 to 8
      invariant forall j | 0 <= j < 16 :: buf[j] == if at <= j < at + k then nonce[j - at] else 0
    {
      buf[at + k] := nonce[k];
    }
    b := buf[..];
  }

  method CbcMac(aes: Aes, sk: Block, nonce: Half, data: seq<byte>) returns (tag: Pair)
    ensures tag == MacTag(aes, sk, nonce, data)
  {
    var b0 := BlockWithNonce(nonce, 0);
    b0 := b0[8 := ByteOf(|data|)];
    assert b0 == FirstBlock(nonce, |data|);

    var state: Block := ReversedAes(aes, sk, b0);
    for i := 0 to |data|
      invariant state == LoopState(aes, sk, nonce, data, i)
    {
      ghost var before := state;
      state := state[i % 16 := state[i % 16] ^ data[i]];
      LoopStateStep(aes, sk, nonce, data, i, before, state);
      if i % 16 == 15 || i == |data| - 1 {
        state := ReversedAes(aes, sk, state);
      }
    }
    tag := state[..2];
  }

  // ----- the MAC as a machine that eats the data from the front -----

  /** The state with the first bytes of the data XORed in, as many as there are up to 16. */
  ghost function Mixed(state: Block, data: seq<byte>): Block
  {
    seq(16, k requires 0 <= k < 16 => if k < |data| then state[k] ^ data[k] else state[k])
  }

  ghost function MacFrom(aes: Aes, sk: Block, state: Block, data: seq<byte>): Block
    decreases |data|
  {
    if data == [] then state
    else MacFrom(aes, sk, ReversedAes(aes, sk, Mixed(state, data)), if |data| < 16 then [] else data[16..])
  }

  lemma MixedIs(m: Block, data: seq<byte>, j: nat)
    requires 16 * j < |data|
    ensures Mixed(m, data[16 * j..]) == Xored(m, Chunk(data, j))
  {
    forall k | 0 <= k < 16
      ensures Mixed(m, data[16 * j..])[k] == Xored(m, Chunk(data, j))[k]
    {
      if 16 * j + k < |data| {
        assert data[16 * j..][k] == data[16 * j + k];
      } else {
        assert Chunk(data, j)[k] == 0;
      }
    }
  }

  lemma {:induction false} MacFromChunk(aes: Aes, sk: Block, nonce: Half, data: seq<byte>, j: nat)
    requires j <= ChunkCount(|data|)
    ensures FullMac(aes, sk, nonce, data)
         == MacFrom(aes, sk, MacState(aes, sk, nonce, data, j), if 16 * j < |data| then data[16 * j..] else [])
    decreases ChunkCount(|data|) - j
  {
    if j < ChunkCount(|data|) {
      var rest := data[16 * j..];
      MixedIs(MacState(aes, sk, nonce, data, j), data, j);
      MacFromChunk(aes, sk, nonce, data, j + 1);
      if |rest| > 16 {
        assert rest[16..] == data[16 * (j + 1)..];
      }
    }
  }

  /** The tag is the first two bytes of the state the machine ends in when it starts from the encrypted
      block of nonce, length mod 256 and seven zeros, at every length. */
  lemma MacTagIs(aes: Aes, sk: Block, nonce: Half, data: seq<byte>, length: byte)
    requires length as int == |data| % 256
    ensures MacTag(aes, sk, nonce, data)
         <= MacFrom(aes, sk, ReversedAes(aes, sk, nonce + [length] + [0, 0, 0, 0, 0, 0, 0]), data)
  {
    ByteOfValue(|data|);
    ByteValueInjective(length, ByteOf(|data|));
    assert FirstBlock(nonce, |data|) == nonce + [length] + [0, 0, 0, 0, 0, 0, 0];
    MacFromChunk(aes, sk, nonce, data, 0);
    if |data| > 0 {
      assert data[0..] == data;
    }
  }

  lemma EmptyMac(aes: Aes, sk: Block, nonce: Half)
    ensures FullMac(aes, sk, nonce, []) == ReversedAes(aes, sk, nonce + Zeros(8))
  {
    assert FirstBlock(nonce, 0) == nonce + Zeros(8);
  }

  // ----- collisions of the full MAC state -----

  /** Two messages agree outside the c-th chunk. */
  ghost predicate DifferOnlyInChunk(p: seq<byte>, q: seq<byte>, c: nat)
  {
    |p| == |q| && forall i | 0 <= i < |p| && i / 16 != c :: p[i] == q[i]
  }

  lemma SameChunk(p: seq<byte>, q: seq<byte>, c: nat, j: nat)
    requires DifferOnlyInChunk(p, q, c) && j != c
    ensures Chunk(p, j) == Chunk(q, j)
  {
    forall k | 0 <= k < 16
      ensures Chunk(p, j)[k] == Chunk(q, j)[k]
    {
      assert (16 * j + k) / 16 == j;
    }
  }

  lemma {:induction false} SameUntilChunk(aes: Aes, sk: Block, nonce: Half, p: seq<byte>, q: seq<byte>, c: nat, j: nat)
    requires DifferOnlyInChunk(p, q, c) && j <= c
    ensures MacState(aes, sk, nonce, p, j) == MacState(aes, sk, nonce, q, j)
  {
    if j > 0 {
      SameUntilChunk(aes, sk, nonce, p, q, c, j - 1);
      SameChunk(p, q, c, j - 1);
    }
  }

  /** One block of the chain carries a difference on, whether it is in the state or in the chunk. */
  lemma StepDiffers(aes: Aes, sk: Block, m: Block, n: Block, c: Block, d: Block)
    requires Invertible(aes) && ((m == n && c != d) || (m != n && c == d))
    ensures ReversedAes(aes, sk, Xored(m, c)) != ReversedAes(aes, sk, Xored(n, d))
  {
    ReversedAesInjective(aes, sk, Xored(m, c), Xored(n, d));
    if Xored(m, c) == Xored(n, d) {
      XoredCommutes(m, c);
      XoredCommutes(n, d);
      if m == n {
        XoredInjective(m, c, d);
      } else {
        XoredInjective(c, m, n);
      }
      assert false;
    }
  }

  lemma {:induction false} DifferAfterChunk(aes: Aes, sk: Block, nonce: Half, p: seq<byte>, q: seq<byte>,
                                            c: nat, j: nat)
    requires Invertible(aes)
    requires DifferOnlyInChunk(p, q, c) && Chunk(p, c) != Chunk(q, c) && c < j
    ensures MacState(aes, sk, nonce, p, j) != MacState(aes, sk, nonce, q, j)
  {
    var mp, mq := MacState(aes, sk, nonce, p, j - 1), MacState(aes, sk, nonce, q, j - 1);
    if j == c + 1 {
      SameUntilChunk(aes, sk, nonce, p, q, c, c);
    } else {
      SameChunk(p, q, c, j - 1);
      DifferAfterChunk(aes, sk, nonce, p, q, c, j - 1);
    }
    StepDiffers(aes, sk, mp, mq, Chunk(p, j - 1), Chunk(q, j - 1));
  }

  /** Messages of equal length that differ in one chunk only never share a full MAC state. */
  lemma OneChunkChangeIsSeen(aes: Aes, sk: Block, nonce: Half, p: seq<byte>, q: seq<byte>, c: nat)
    requires Invertible(aes)
    requires DifferOnlyInChunk(p, q, c)
    ensures FullMac(aes, sk, nonce, p) == FullMac(aes, sk, nonce, q) <==> p == q
  {
    if p != q {
      var i :| 0 <= i < |p| && p[i] != q[i];
      assert i / 16 == c && 16 * c + i % 16 == i;
      assert Chunk(p, c)[i % 16] != Chunk(q, c)[i % 16];
      assert c < ChunkCount(|p|);
      DifferAfterChunk(aes, sk, nonce, p, q, c, ChunkCount(|p|));
    }
  }

  /** Every command plaintext is at most 15 bytes, so commands of one length never collide. */
  lemma ShortMessagesNeverCollide(aes: Aes, sk: Block, nonce: Half, p: seq<byte>, q: seq<byte>)
    requires Invertible(aes)
    requires |p| == |q| <= 16
    ensures FullMac(aes, sk, nonce, p) == FullMac(aes, sk, nonce, q) <==> p == q
  {
    OneChunkChangeIsSeen(aes, sk, nonce, p, q, 0);
  }

  // ----- CTR mode -----

  function CounterBlock(nonce: Half, j: nat): Block
  {
    [ByteOf(j)] + nonce + Zeros(7)
  }

  /** Byte i of the keystream. */
  function KeyByte(aes: Aes, sk: Block, nonce: Half, i: nat): byte
  {
    ReversedAes(aes, sk, CounterBlock(nonce, i / 16))[i % 16]
  }

  function Crypted(aes: Aes, sk: Block, nonce: Half, data: seq<byte>): (out: seq<byte>)
    ensures |out| == |data|
  {
    seq(|data|, i requires 0 <= i < |data| => data[i] ^ KeyByte(aes, sk, nonce, i))
  }

  /** At the top of iteration i the counter block is the next one to encrypt, and inside a block
      the keystream is that of the current one. */
  ghost predicate AtByte(aes: Aes, sk: Block, nonce: Half, i: nat, ctrBlock: Block, keystream: Block)
  {
    && ctrBlock == CounterBlock(nonce, ChunkCount(i))
    && (i % 16 != 0 ==> keystream == ReversedAes(aes, sk, CounterBlock(nonce, i / 16)))
  }

  /** One iteration of the CTR loop refreshes the keystream at a block boundary, and then the byte
      it needs is the specified one. */
  lemma CtrStep(aes: Aes, sk: Block, nonce: Half, data: seq<byte>, i: nat,
                ctr: Block, keystream: Block, ctr': Block, keystream': Block)
    requires i < |data| && AtByte(aes, sk, nonce, i, ctr, keystream)
    requires keystream' == if i % 16 == 0 then ReversedAes(aes, sk, ctr) else keystream
    requires ctr' == if i % 16 == 0 then ctr[0 := ctr[0] + 1] else ctr
    ensures AtByte(aes, sk, nonce, i + 1, ctr', keystream')
    ensures data[i] ^ keystream'[i % 16] == Crypted(aes, sk, nonce, data)[i]
  {
    var c := i / 16;
    if i % 16 == 0 {
      assert ChunkCount(i) == c && ChunkCount(i + 1) == c + 1;
      assert ctr' == CounterBlock(nonce, c + 1);
    } else {
      assert ChunkCount(i) == c + 1 && ChunkCount(i + 1) == c + 1;
    }
    assert (i + 1) % 16 != 0 ==> (i + 1) / 16 == c;
    assert keystream'[i % 16] == KeyByte(aes, sk, nonce, i);
  }

  method CtrCrypt(aes: Aes, sk: Block, nonce: Half, data: seq<byte>) returns (res: seq<byte>)
    ensures res == Crypted(aes, sk, nonce, data)
  {
    ghost var want := Crypted(aes, sk, nonce, data);
    var ctrBlock := BlockWithNonce(nonce, 1);
    assert ctrBlock == CounterBlock(nonce, 0);
    var out := new byte[|data|](_ => 0);
    var keystream: Block := Zeros(16);
    for i := 0 to |data|
      invariant AtByte(aes, sk, nonce, i, ctrBlock, keystream)
      invariant forall k | 0 <= k < i :: out[k] == want[k]
    {
      ghost var ctr, key := ctrBlock, keystream;
      if i % 16 == 0 {
        keystream := ReversedAes(aes, sk, ctrBlock);
        ctrBlock := ctrBlock[0 := ctrBlock[0] + 1];
      }
      CtrStep(aes, sk, nonce, data, i, ctr, key, ctrBlock, keystream);
      out[i] := data[i] ^ keystream[i % 16];
    }
    res := out[..];
  }

  /** Encrypting zeros shows the keystream: its block j is the encryption of the counter j mod 256,
      the nonce and seven zeros. */
  lemma Keystream(aes: Aes, sk: Block, nonce: Half, n: nat, j: nat, counter: byte)
    requires counter as int == j % 256 && 16 * j + 16 <= n
    ensures Crypted(aes, sk, nonce, Zeros(n))[16 * j..16 * j + 16]
         == ReversedAes(aes, sk, [counter] + nonce + [0, 0, 0, 0, 0, 0, 0])
  {
    ByteOfValue(j);
    ByteValueInjective(counter, ByteOf(j));
    assert CounterBlock(nonce, j) == [counter] + nonce + [0, 0, 0, 0, 0, 0, 0];
    forall k | 0 <= k < 16
      ensures Crypted(aes, sk, nonce, Zeros(n))[16 * j + k] == ReversedAes(aes, sk, CounterBlock(nonce, j))[k]
    {
      assert (16 * j + k) / 16 == j && (16 * j + k) % 16 == k;
      assert Zeros(n)[16 * j + k] == 0;
      ZeroXor(KeyByte(aes, sk, nonce, 16 * j + k));
    }
  }

  lemma ZeroXor(b: byte)
    ensures 0 ^ b == b
  {
  }

  /** And everything else is XORed with it. */
  lemma CryptedByKeystream(aes: Aes, sk: Block, nonce: Half, data: seq<byte>, n: nat, i: nat)
    requires i < |data| <= n
    ensures Crypted(aes, sk, nonce, data)[i] == data[i] ^ Crypted(aes, sk, nonce, Zeros(n))[i]
  {
    assert Zeros(n)[i] == 0;
    ZeroXor(KeyByte(aes, sk, nonce, i));
  }

  lemma CryptTwice(aes: Aes, sk: Block, nonce: Half, data: seq<byte>)
    ensures Crypted(aes, sk, nonce, Crypted(aes, sk, nonce, data)) == data
  {
    var once := Crypted(aes, sk, nonce, data);
    forall i | 0 <= i < |data|
      ensures Crypted(aes, sk, nonce, once)[i] == data[i]
    {
      XorCancels(data[i], KeyByte(aes, sk, nonce, i), 0);
    }
  }

  lemma CryptPrefix(aes: Aes, sk: Block, nonce: Half, data: seq<byte>, n: nat)
    requires n <= |data|
    ensures Crypted(aes, sk, nonce, data[..n]) == Crypted(aes, sk, nonce, data)[..n]
  {
  }

  /** The counter blocks of an n-byte message are pairwise distinct. */
  ghost predicate CountersDistinct(nonce: Half, n: nat)
  {
    forall j, k | 0 <= j < k < ChunkCount(n) :: CounterBlock(nonce, j) != CounterBlock(nonce, k)
  }

  lemma CounterBlockEqual(nonce: Half, j: nat, k: nat)
    ensures CounterBlock(nonce, j) == CounterBlock(nonce, k) <==> j % 256 == k % 256
  {
    ByteOfEqual(j, k);
    assert CounterBlock(nonce, j)[0] == ByteOf(j);
    assert CounterBlock(nonce, k)[0] == ByteOf(k);
  }

  /** The one-byte counter serves messages of up to 4096 bytes, and no longer ones. */
  lemma CountersDistinctIff(nonce: Half, n: nat)
    ensures CountersDistinct(nonce, n) <==> n <= 4096
  {
    if n <= 4096 {
      forall j, k | 0 <= j < k < ChunkCount(n)
        ensures CounterBlock(nonce, j) != CounterBlock(nonce, k)
      {
        CounterBlockEqual(nonce, j, k);
      }
    } else {
      CounterBlockEqual(nonce, 0, 256);
      assert 0 <= 0 < 256 < ChunkCount(n);
    }
  }

  // ----- packets -----

  /** The wire form of an encrypted command: sno, tag, ciphertext. */
  function Encrypted(aes: Aes, sk: Block, nonce: Half, sno: Sno, plaintext: seq<byte>): seq<byte>
  {
    sno + MacTag(aes, sk, nonce, plaintext) + Crypted(aes, sk, nonce, plaintext)
  }

  method Encrypt(aes: Aes, sk: Block, nonce: Half, sno: Sno, plaintext: seq<byte>) returns (packet: seq<byte>)
    ensures packet == Encrypted(aes, sk, nonce, sno, plaintext)
  {
    var tag := CbcMac(aes, sk, nonce, plaintext);
    var ct := CtrCrypt(aes, sk, nonce, plaintext);
    packet := [];
    packet := packet + sno;
    packet := packet + tag;
    packet := packet + ct;
  }

  /** The packet is the serial number, the first two bytes of the MAC state of the plaintext, and the
      plaintext XORed with the keystream. */
  lemma PacketLayout(aes: Aes, sk: Block, nonce: Half, sno: Sno, p: seq<byte>)
    ensures var packet := Encrypted(aes, sk, nonce, sno, p);
            && |packet| == 5 + |p|
            && packet[..3] == sno
            && packet[3..5] <= FullMac(aes, sk, nonce, p)
            && packet[5..] == Crypted(aes, sk, nonce, p)
  {
    var packet := Encrypted(aes, sk, nonce, sno, p);
    assert packet[3..5] == MacTag(aes, sk, nonce, p);
  }

  function Decrypted(aes: Aes, sk: Block, nonce: Half, tag: Pair, ciphertext: seq<byte>): Result<seq<byte>>
  {
    var plaintext := Crypted(aes, sk, nonce, ciphertext);
    if MacTag(aes, sk, nonce, plaintext) != tag then Failure(TagMismatch) else Success(plaintext)
  }

  method Decrypt(aes: Aes, sk: Block, nonce: Half, tag: Pair, ciphertext: seq<byte>)
    returns (r: Result<seq<byte>>)
    ensures r == Decrypted(aes, sk, nonce, tag, ciphertext)
  {
    var plaintext := CtrCrypt(aes, sk, nonce, ciphertext);
    var expected := CbcMac(aes, sk, nonce, plaintext);
    if expected != tag {
      return Failure(TagMismatch);
    }
    return Success(plaintext);
  }

  /** Decrypt accepts exactly the packets Encrypt makes, and returns what was encrypted. */
  lemma DecryptExact(aes: Aes, sk: Block, nonce: Half, sno: Sno, tag: Pair, ct: seq<byte>, p: seq<byte>)
    ensures Decrypted(aes, sk, nonce, tag, ct) == Success(p)
       <==> Encrypted(aes, sk, nonce, sno, p) == sno + tag + ct
  {
    var packet := Encrypted(aes, sk, nonce, sno, p);
    assert packet[3..5] == MacTag(aes, sk, nonce, p);
    assert packet[5..] == Crypted(aes, sk, nonce, p);
    assert (sno + tag + ct)[3..5] == tag && (sno + tag + ct)[5..] == ct;
    CryptTwice(aes, sk, nonce, p);
    CryptTwice(aes, sk, nonce, ct);
  }

  /** What a node holding the session key does with a command packet: read the sno, rebuild the
      nonce, verify and decrypt. */
  function PeerOpens(aes: Aes, sk: Block, mac: Mac, packet: seq<byte>): Result<seq<byte>>
  {
    if |packet| < 5 then Failure(ShortPacket)
    else Decrypted(aes, sk, CommandNonce(mac, packet[..3]), packet[3..5], packet[5..])
  }

  lemma PeerRecovers(aes: Aes, sk: Block, mac: Mac, sno: Sno, p: seq<byte>)
    ensures PeerOpens(aes, sk, mac, Encrypted(aes, sk, CommandNonce(mac, sno), sno, p)) == Success(p)
  {
    var nonce := CommandNonce(mac, sno);
    var packet := Encrypted(aes, sk, nonce, sno, p);
    assert packet[..3] == sno && packet == sno + packet[3..5] + packet[5..];
    DecryptExact(aes, sk, nonce, sno, packet[3..5], packet[5..], p);
  }

  /** Two packets under one key and nonce are equal exactly when their snos and plaintexts are. */
  lemma EncryptedInjective(aes: Aes, sk: Block, nonce: Half, a: Sno, p: seq<byte>, b: Sno, q: seq<byte>)
    ensures Encrypted(aes, sk, nonce, a, p) == Encrypted(aes, sk, nonce, b, q) <==> a == b && p == q
  {
    var x, y := Encrypted(aes, sk, nonce, a, p), Encrypted(aes, sk, nonce, b, q);
    assert x[..3] == a && x[5..] == Crypted(aes, sk, nonce, p);
    assert y[..3] == b && y[5..] == Crypted(aes, sk, nonce, q);
    CryptTwice(aes, sk, nonce, p);
    CryptTwice(aes, sk, nonce, q);
  }
}
