/** The pairing handshake of crypto/login.go, and the mesh node on the other side of it. */
module LoginHandshake {
  import opened Bytes
  import opened Results
  import opened PacketCipher

  const LOGIN_REQUEST_TAG: byte := 0x0C
  const LOGIN_RESPONSE_TAG: byte := 0x0D

  type Request = s: seq<byte> | |s| == 17 witness [0, 0, 0, 0, 0, 0, 0, 0, 0, 0, 0, 0, 0, 0, 0, 0, 0]

  /** The block both sides compute from the mesh name and password. */
  function Credentials(name: seq<byte>, password: seq<byte>): Block
  {
    Xored(Padded(name), Padded(password))
  }

  function LoginProof(aes: Aes, name: seq<byte>, password: seq<byte>, randA: Half): Half
  {
    ReversedAes(aes, randA + Zeros(8), Credentials(name, password))[..8]
  }

  function LoginRequest(aes: Aes, name: seq<byte>, password: seq<byte>, randA: Half): Request
  {
    [LOGIN_REQUEST_TAG] + randA + LoginProof(aes, name, password, randA)
  }

  function SessionKey(aes: Aes, name: seq<byte>, password: seq<byte>, randA: Half, randB: Half): Block
  {
    ReversedAes(aes, Credentials(name, password), randA + randB)
  }

  function LoginResponse(resp: seq<byte>): Result<Half>
  {
    if |resp| < 17 then Failure(ResponseTooShort)
    else if resp[0] != LOGIN_RESPONSE_TAG then Failure(ResponseBadTag)
    else Success(resp[1..9])
  }

  /** The credentials are the XOR of name and password, each zero-padded or cut to 16 bytes. */
  lemma CredentialsAt(name: seq<byte>, password: seq<byte>, k: nat)
    requires k < 16
    ensures Credentials(name, password)[k]
         == (if k < |name| then name[k] else 0) ^ (if k < |password| then password[k] else 0)
  {
  }

  /** Who can decrypt under randA and zeros sees the credentials behind a request: its last eight bytes
      are the first half of what they encrypt to. */
  lemma RequestHolds(aes: Aes, inverse: Aes, name: seq<byte>, password: seq<byte>, randA: Half)
    requires forall k: Block, x: Block :: inverse(k, aes(k, x)) == x
    ensures var req := LoginRequest(aes, name, password, randA);
            && req[..9] == [0x0C] + randA
            && exists tail: Half ::
                 ReversedAes(inverse, randA + Zeros(8), req[9..] + tail) == Credentials(name, password)
  {
    var req := LoginRequest(aes, name, password, randA);
    var ct := ReversedAes(aes, randA + Zeros(8), Credentials(name, password));
    var tail: Half := ct[8..];
    ReversedAesUndone(aes, inverse, randA + Zeros(8), Credentials(name, password));
    assert req[9..] + tail == ct;
  }

  /** A response is read as randB exactly when it is the tag, randB and at least eight bytes more. */
  lemma ResponseExact(resp: seq<byte>, randB: Half)
    ensures LoginResponse(resp) == Success(randB)
       <==> exists tail: seq<byte> :: |tail| >= 8 && resp == [0x0D] + randB + tail
    ensures LoginResponse(resp) == Failure(ResponseTooShort) <==> |resp| < 17
  {
    if LoginResponse(resp) == Success(randB) {
      assert resp == [0x0D] + randB + resp[9..];
    }
  }

  method BuildLoginRequest(aes: Aes, name: seq<byte>, password: seq<byte>, randA: Half) returns (r: Request)
    ensures r == LoginRequest(aes, name, password, randA)
  {
    var key := new byte[16](_ => 0);
    CopyAt(key, 0, randA);
    assert key[..] == randA + Zeros(8);
    var nameBuf := Pad16(name);
    var passBuf := Pad16(password);
    var pt := Xor16(nameBuf, passBuf);
    var ct := ReversedAes(aes, key[..], pt);
    var req := new byte[17](_ => 0);
    req[0] := LOGIN_REQUEST_TAG;
    CopyAt(req, 1, randA);
    CopyAt(req, 9, ct[..8]);
    r := req[..];
  }

  method ParseLoginResponse(resp: seq<byte>) returns (r: Result<Half>)
    ensures r == LoginResponse(resp)
  {
    var randB := new byte[8](_ => 0);
    if |resp| < 17 {
      return Failure(ResponseTooShort);
    }
    if resp[0] != LOGIN_RESPONSE_TAG {
      return Failure(ResponseBadTag);
    }
    CopyAt(randB, 0, resp[1..9]);
    assert randB[..] == resp[1..9];
    return Success(randB[..]);
  }

  method DeriveSessionKey(aes: Aes, name: seq<byte>, password: seq<byte>, randA: Half, randB: Half)
    returns (sk: Block)
    ensures sk == SessionKey(aes, name, password, randA, randB)
  {
    var nameBuf := Pad16(name);
    var passBuf := Pad16(password);
    var key := Xor16(nameBuf, passBuf);
    var pt := new byte[16](_ => 0);
    CopyAt(pt, 0, randA);
    CopyAt(pt, 8, randB);
    assert pt[..] == randA + randB;
    sk := ReversedAes(aes, key, pt[..]);
  }

  // ----- the node's side, as the specification -----

  /** A node knowing name and password accepts a request when it can reproduce its proof; it
      answers with its own nonce and keeps the session key. The tail of the answer is free. */
  function NodeAnswers(aes: Aes, name: seq<byte>, password: seq<byte>, randB: Half, tail: Half, req: Request)
    : Option<(seq<byte>, Block)>
  {
    var randA: Half := req[1..9];
    if req[0] == LOGIN_REQUEST_TAG && req[9..] == LoginProof(aes, name, password, randA)
    then Some(([LOGIN_RESPONSE_TAG] + randB + tail, SessionKey(aes, name, password, randA, randB)))
    else None
  }

  /** Client and node end the handshake with the same session key. */
  lemma HandshakeAgrees(aes: Aes, name: seq<byte>, password: seq<byte>, randA: Half, randB: Half, tail: Half)
    ensures var answer := NodeAnswers(aes, name, password, randB, tail, LoginRequest(aes, name, password, randA));
            && answer.Some?
            && LoginResponse(answer.value.0) == Success(randB)
            && answer.value.1 == SessionKey(aes, name, password, randA, randB)
  {
    var req := LoginRequest(aes, name, password, randA);
    assert req[1..9] == randA;
    assert req[9..] == LoginProof(aes, name, password, randA);
    assert ([LOGIN_RESPONSE_TAG] + randB + tail)[1..9] == randB;
  }

  /** Who holds the credentials and can decrypt sees both nonces in the session key: they are what is
      encrypted, and the credentials are the key, the other way round than in the request. */
  lemma SessionKeyHolds(aes: Aes, inverse: Aes, name: seq<byte>, password: seq<byte>, randA: Half, randB: Half)
    requires forall k: Block, x: Block :: inverse(k, aes(k, x)) == x
    ensures ReversedAes(inverse, Credentials(name, password), SessionKey(aes, name, password, randA, randB))
         == randA + randB
  {
    ReversedAesUndone(aes, inverse, Credentials(name, password), randA + randB);
  }

  /** A node takes exactly the requests a client with its name and password makes. */
  lemma NodeTakesIff(aes: Aes, name: seq<byte>, password: seq<byte>, randB: Half, tail: Half, req: Request)
    ensures NodeAnswers(aes, name, password, randB, tail, req).Some?
       <==> exists randA: Half :: req == LoginRequest(aes, name, password, randA)
  {
    if NodeAnswers(aes, name, password, randB, tail, req).Some? {
      var randA: Half := req[1..9];
      assert req == [req[0]] + randA + req[9..];
      assert req == LoginRequest(aes, name, password, randA);
    }
    if randA: Half :| req == LoginRequest(aes, name, password, randA) {
      HandshakeAgrees(aes, name, password, randA, randB, tail);
    }
  }

  /** Under one set of credentials, fresh randomness on either side always gives a fresh key. */
  lemma SessionKeyFresh(aes: Aes, name: seq<byte>, password: seq<byte>, a: Half, b: Half, a': Half, b': Half)
    requires Invertible(aes)
    ensures SessionKey(aes, name, password, a, b) == SessionKey(aes, name, password, a', b')
       <==> a == a' && b == b'
  {
    ReversedAesInjective(aes, Credentials(name, password), a + b, a' + b');
    assert (a + b)[..8] == a && (a + b)[8..] == b;
    assert (a' + b')[..8] == a' && (a' + b')[8..] == b';
  }

  /** The credentials enter only through the XOR of their first 16 bytes, so the two are
      interchangeable and anything past 16 bytes is ignored. */
  lemma CredentialsForget(name: seq<byte>, password: seq<byte>, extra: seq<byte>)
    ensures Credentials(name, password) == Credentials(password, name)
    ensures |name| >= 16 ==> Credentials(name + extra, password) == Credentials(name, password)
  {
    XoredCommutes(Padded(name), Padded(password));
    if |name| >= 16 {
      assert Padded(name + extra) == Padded(name);
    }
  }
}
