/** Exactly when a Send races with a Login: under which key and for whom a packet is. */
module StaleKeys {
  import opened Bytes
  import opened Results
  import opened PacketCipher
  import LoginHandshake
  import opened Commands
  import opened Sessions
  import opened ClientRuns
  import opened ClientTheorems

  // ----- histories whose logins all have their own key -----

  ghost predicate KeysDistinct(h: seq<Event>)
  {
    forall i, j | 0 <= i < j < |h| && h[i].Committed? && h[j].Committed? :: h[i].login.key != h[j].login.key
  }

  /** The login in force was committed at some place, and none was committed after it. */
  lemma {:induction false} LastCommit(h: seq<Event>) returns (i: nat)
    requires LastLogin(h).Some?
    ensures i < |h| && h[i].Committed? && LastLogin(h) == Some(h[i].login) && NoCommit(h, i + 1, |h|)
  {
    var m := |h| - 1;
    if h[m].Committed? {
      i := m;
    } else {
      var g := h[..m];
      i := LastCommit(g);
      forall k | i + 1 <= k < |h|
        ensures !h[k].Committed?
      {
        if k < m {
          assert g[k] == h[k];
        }
      }
    }
  }

  /** The key in force is the same at two places exactly when no login was committed between them. */
  lemma KeyInForceIff(h: seq<Event>, a: nat, d: nat)
    requires a <= d <= |h| && LastLogin(h[..a]).Some? && KeysDistinct(h)
    ensures LastLogin(h[..d]).Some?
    ensures LastLogin(h[..a]).value.key == LastLogin(h[..d]).value.key <==> NoCommit(h, a, d)
  {
    var g := h[..d];
    assert g[..a] == h[..a];
    LoginStays(g, a);
    if NoCommit(h, a, d) {
      assert NoCommit(g, a, |g|);
      KeyStays(g, a);
    } else {
      var i := LastCommit(h[..a]);
      var j := LastCommit(g);
      var c :| a <= c < d && h[c].Committed?;
      assert g[c] == h[c];
      assert i < a <= c <= j;
      assert h[..a][i] == h[i] && g[j] == h[j];
    }
  }

  /** A Send's packet is under the key in force when it drew its serial number if and only if no login
      was committed between its two critical sections. */
  lemma SendIsCurrentIff(aes: Aes, mac: Mac, h: seq<Event>, w: nat, a: nat, d: nat)
    requires PacketFrom(aes, mac, h, w, a, d) && KeysDistinct(h)
    ensures LastLogin(h[..d]).Some?
    ensures LastLogin(h[..a]).value.key == LastLogin(h[..d]).value.key <==> NoCommit(h, a, d)
  {
    KeyInForceIff(h, a, d);
  }

  // ----- runs in which every login has its own key -----

  /** All logins are to one mesh. */
  ghost predicate OneMesh(acts: seq<Action>, name: seq<byte>, password: seq<byte>)
  {
    forall i | 0 <= i < |acts| && acts[i].CallLogin? :: acts[i].name == name && acts[i].password == password
  }

  /** No two logins draw the same randA. */
  ghost predicate FreshRandA(acts: seq<Action>)
  {
    forall i, j | 0 <= i < j < |acts| && acts[i].CallLogin? && acts[j].CallLogin? :: acts[i].randA != acts[j].randA
  }

  /** The key comes from the randA of a Login call in acts. */
  ghost predicate KeyFrom(aes: Aes, acts: seq<Action>, name: seq<byte>, password: seq<byte>, t: nat, key: Block)
  {
    exists randA: Half, salt: Pair, randB: Half ::
      && CallLogin(t, name, password, randA, salt) in acts
      && key == LoginHandshake.SessionKey(aes, name, password, randA, randB)
  }

  ghost predicate LoginOk(aes: Aes, acts: seq<Action>, name: seq<byte>, password: seq<byte>, t: nat, p: Phase)
  {
    match p
    case LoginCalled(n, pw, randA, salt) => n == name && pw == password && CallLogin(t, n, pw, randA, salt) in acts
    case LoginWritten(n, pw, randA, salt) => n == name && pw == password && CallLogin(t, n, pw, randA, salt) in acts
    case LoginKeyed(key, _) => KeyFrom(aes, acts, name, password, t, key)
    case _ => true
  }

  ghost predicate KeysOk(aes: Aes, acts: seq<Action>, name: seq<byte>, password: seq<byte>, s: State)
  {
    && (forall t | t in s.threads :: LoginOk(aes, acts, name, password, t, s.threads[t]))
    && (forall i | 0 <= i < |s.history| && s.history[i].Committed? ::
          KeyFrom(aes, acts, name, password, s.history[i].tid, s.history[i].login.key))
  }

  lemma KeyFromMore(aes: Aes, acts: seq<Action>, a: Action, name: seq<byte>, password: seq<byte>, t: nat, key: Block)
    requires KeyFrom(aes, acts, name, password, t, key)
    ensures KeyFrom(aes, acts + [a], name, password, t, key)
  {
    var randA: Half, salt: Pair, randB: Half :|
      && CallLogin(t, name, password, randA, salt) in acts
      && key == LoginHandshake.SessionKey(aes, name, password, randA, randB);
    assert CallLogin(t, name, password, randA, salt) in acts + [a];
  }

  lemma LoginOkMore(aes: Aes, acts: seq<Action>, a: Action, name: seq<byte>, password: seq<byte>, t: nat, p: Phase)
    requires LoginOk(aes, acts, name, password, t, p)
    ensures LoginOk(aes, acts + [a], name, password, t, p)
  {
    if p.LoginKeyed? {
      KeyFromMore(aes, acts, a, name, password, t, p.key);
    }
  }

  /** What a step makes of the call that takes it. */
  lemma LoginStepOk(aes: Aes, acts: seq<Action>, name: seq<byte>, password: seq<byte>, s: State, a: Action)
    requires Enabled(s, a) && a in acts
    requires a.CallLogin? ==> a.name == name && a.password == password
    requires a.tid in s.threads ==> LoginOk(aes, acts, name, password, a.tid, s.threads[a.tid])
    ensures var e := EffectOf(aes, s, a);
            && LoginOk(aes, acts, name, password, a.tid, e.phase)
            && |e.events| <= 1
            && (e.events != [] && e.events[0].Committed? ==>
                  e.events[0].tid == a.tid && KeyFrom(aes, acts, name, password, a.tid, e.events[0].login.key))
  {
    if a.ReadPair? {
      var p := s.threads[a.tid];
      if a.response.Some? {
        var r := LoginHandshake.LoginResponse(a.response.value);
        if r.Success? {
          assert CallLogin(a.tid, name, password, p.randA, p.salt) in acts;
          assert KeyFrom(aes, acts, name, password, a.tid,
                         LoginHandshake.SessionKey(aes, name, password, p.randA, r.value));
        }
      }
    }
  }

  lemma KeysStep(aes: Aes, acts: seq<Action>, name: seq<byte>, password: seq<byte>, s: State, a: Action)
    requires KeysOk(aes, acts, name, password, s) && Enabled(s, a)
    requires a.CallLogin? ==> a.name == name && a.password == password
    ensures KeysOk(aes, acts + [a], name, password, Step(aes, s, a))
  {
    var s' := Step(aes, s, a);
    forall t | t in s.threads
      ensures LoginOk(aes, acts + [a], name, password, t, s.threads[t])
    {
      LoginOkMore(aes, acts, a, name, password, t, s.threads[t]);
    }
    LoginStepOk(aes, acts + [a], name, password, s, a);
    forall i | 0 <= i < |s'.history| && s'.history[i].Committed?
      ensures KeyFrom(aes, acts + [a], name, password, s'.history[i].tid, s'.history[i].login.key)
    {
      if i < |s.history| {
        KeyFromMore(aes, acts, a, name, password, s.history[i].tid, s.history[i].login.key);
      }
    }
  }

  lemma {:induction false} RunKeys(aes: Aes, mac: Mac, acts: seq<Action>, name: seq<byte>, password: seq<byte>)
    requires Run(aes, mac, acts).Some? && OneMesh(acts, name, password)
    ensures KeysOk(aes, acts, name, password, Run(aes, mac, acts).value)
  {
    if acts != [] {
      var m := |acts| - 1;
      RunSplit(aes, mac, acts);
      RunKeys(aes, mac, acts[..m], name, password);
      KeysStep(aes, acts[..m], name, password, Run(aes, mac, acts[..m]).value, acts[m]);
      assert acts == acts[..m] + [acts[m]];
    }
  }

  /** Two commits are of different calls, so of calls with different randA, so of different keys. */
  lemma CallsDiffer(aes: Aes, acts: seq<Action>, name: seq<byte>, password: seq<byte>,
                    t: nat, key: Block, t': nat, key': Block)
    requires Invertible(aes) && FreshRandA(acts) && t != t'
    requires KeyFrom(aes, acts, name, password, t, key) && KeyFrom(aes, acts, name, password, t', key')
    ensures key != key'
  {
    var randA: Half, salt: Pair, randB: Half :|
      && CallLogin(t, name, password, randA, salt) in acts
      && key == LoginHandshake.SessionKey(aes, name, password, randA, randB);
    var randA': Half, salt': Pair, randB': Half :|
      && CallLogin(t', name, password, randA', salt') in acts
      && key' == LoginHandshake.SessionKey(aes, name, password, randA', randB');
    var i :| 0 <= i < |acts| && acts[i] == CallLogin(t, name, password, randA, salt);
    var j :| 0 <= j < |acts| && acts[j] == CallLogin(t', name, password, randA', salt');
    assert i != j;
    LoginHandshake.SessionKeyFresh(aes, name, password, randA, randB, randA', randB');
  }

  lemma RunKeysDistinct(aes: Aes, mac: Mac, acts: seq<Action>, s: State, name: seq<byte>, password: seq<byte>)
    requires Invertible(aes) && Run(aes, mac, acts) == Some(s)
    requires OneMesh(acts, name, password) && FreshRandA(acts)
    ensures KeysDistinct(s.history)
  {
    RunKeeps(aes, mac, acts);
    RunKeys(aes, mac, acts, name, password);
    var h := s.history;
    forall i, j | 0 <= i < j < |h| && h[i].Committed? && h[j].Committed?
      ensures h[i].login.key != h[j].login.key
    {
      assert h[i].tid != h[j].tid;
      CallsDiffer(aes, acts, name, password, h[i].tid, h[i].login.key, h[j].tid, h[j].login.key);
    }
  }

  /** In every run of logins to one mesh, none of which repeats a randA, a packet is under the key in
      force at its draw if and only if no login was committed between the two critical sections of
      its Send. */
  lemma TornIff(aes: Aes, mac: Mac, acts: seq<Action>, s: State, name: seq<byte>, password: seq<byte>,
                w: nat, a: nat, d: nat)
    requires Invertible(aes) && Run(aes, mac, acts) == Some(s)
    requires OneMesh(acts, name, password) && FreshRandA(acts)
    requires PacketFrom(aes, mac, s.history, w, a, d)
    ensures var h := s.history;
            && LastLogin(h[..d]).Some?
            && (LastLogin(h[..a]).value.key == LastLogin(h[..d]).value.key <==> NoCommit(h, a, d))
  {
    RunKeysDistinct(aes, mac, acts, s, name, password);
    SendIsCurrentIff(aes, mac, s.history, w, a, d);
  }

  // ----- a torn packet is lost -----

  /** A node with some key recovers a packet's command if and only if tag and ciphertext under its key
      are the ones under the key the packet was made with. */
  lemma RecoversIff(aes: Aes, mac: Mac, sno: Sno, p: seq<byte>, key: Block, other: Block)
    ensures var nonce := CommandNonce(mac, sno);
            var packet := Encrypted(aes, key, nonce, sno, p);
            var sameTag := MacTag(aes, other, nonce, p) == MacTag(aes, key, nonce, p);
            var sameText := Crypted(aes, other, nonce, p) == Crypted(aes, key, nonce, p);
            PeerOpens(aes, other, mac, packet) == Success(p) <==> sameTag && sameText
  {
    var nonce := CommandNonce(mac, sno);
    var tag, ct := MacTag(aes, key, nonce, p), Crypted(aes, key, nonce, p);
    var packet := Encrypted(aes, key, nonce, sno, p);
    assert packet[..3] == sno && packet[3..5] == tag && packet[5..] == ct;
    CryptTwice(aes, other, nonce, p);
    CryptTwice(aes, other, nonce, ct);
  }

  /** A cipher for the counterexample: injective under every key, and different under any two. */
  const XOR_CIPHER: Aes := (k: Block, x: Block) => Xored(k, x)

  lemma XorCipherInvertible()
    ensures Invertible(XOR_CIPHER)
  {
    forall k: Block, x: Block, y: Block | Xored(k, x) == Xored(k, y)
      ensures x == y
    {
      XoredInjective(k, x, y);
    }
  }

  lemma XorReversed(k: Block, x: Block)
    ensures ReversedAes(XOR_CIPHER, k, x)[0] == k[0] ^ x[0]
  {
    assert Reversed(k)[15] == k[0] && Reversed(x)[15] == x[0];
  }

  /** A node with another key does not get the command, whatever it makes of the tag. */
  lemma OtherKeyLoses(mac: Mac, sno: Sno, p: seq<byte>, key: Block, other: Block)
    requires p != [] && key[0] != other[0]
    ensures var packet := Encrypted(XOR_CIPHER, key, CommandNonce(mac, sno), sno, p);
            PeerOpens(XOR_CIPHER, other, mac, packet) != Success(p)
  {
    var nonce := CommandNonce(mac, sno);
    var c := CounterBlock(nonce, 0);
    RecoversIff(XOR_CIPHER, mac, sno, p, key, other);
    XorReversed(key, c);
    XorReversed(other, c);
    TwoKeys(p[0], key[0], other[0], c[0]);
    assert Crypted(XOR_CIPHER, other, nonce, p)[0] != Crypted(XOR_CIPHER, key, nonce, p)[0];
  }

  lemma TwoKeys(b: byte, k: byte, l: byte, c: byte)
    requires k != l
    ensures b ^ (k ^ c) != b ^ (l ^ c)
  {
  }

  /** A login between the two critical sections can lose the command: in some run with an injective
      cipher, the node that holds the key in force at the draw does not get it. */
  lemma TornSendIsLost(mac: Mac, cmd: Command) returns (acts: seq<Action>, s: State, w: nat, a: nat, d: nat)
    requires cmd.Encodable()
    ensures Invertible(XOR_CIPHER) && Run(XOR_CIPHER, mac, acts) == Some(s)
    ensures PacketFrom(XOR_CIPHER, mac, s.history, w, a, d) && s.history[a].cmd == cmd
    ensures var h := s.history;
            && LastLogin(h[..d]).Some?
            && PeerOpens(XOR_CIPHER, LastLogin(h[..d]).value.key, mac, h[w].packet) != Success(Encoded(cmd))
  {
    XorCipherInvertible();
    var zero, one: Half := Zeros(8), [1] + Zeros(7);
    assert zero[0] != one[0];
    acts, s, w, a, d := ClientTheorems.TornSend(XOR_CIPHER, mac, cmd, zero, one, zero);
    var h := s.history;
    FirstBytes(zero, zero);
    FirstBytes(one, zero);
    OtherKeyLoses(mac, h[d].sno, Encoded(cmd), LastLogin(h[..a]).value.key, LastLogin(h[..d]).value.key);
  }

  lemma FirstBytes(randA: Half, randB: Half)
    ensures LoginHandshake.SessionKey(XOR_CIPHER, [], [], randA, randB)[0] == randA[0]
  {
    XorReversed(LoginHandshake.Credentials([], []), randA + randB);
    assert LoginHandshake.Credentials([], [])[0] == 0;
  }
}
