/** What holds in every run of a client, whatever the interleaving of its callers. */
module ClientTheorems {
  import opened Bytes
  import opened Results
  import opened PacketCipher
  import LoginHandshake
  import opened Commands
  import CommandDecoder
  import opened Notifications
  import opened Sessions
  import opened ClientRuns

  // ----- serial numbers -----

  lemma PrefixNumbered(aes: Aes, mac: Mac, acts: seq<Action>, s: State, n: nat)
    requires Run(aes, mac, acts) == Some(s) && n <= |s.history|
    ensures Numbered(s.history[..n])
  {
    RunKeeps(aes, mac, acts);
  }

  /** At every moment of every run, the serial numbers drawn since the last commit are, in the order
      of the draws, numbered 0, 1, 2 and so on under that login's salt. */
  lemma SnosInOrder(aes: Aes, mac: Mac, acts: seq<Action>, s: State, n: nat)
    requires Run(aes, mac, acts) == Some(s) && n <= |s.history|
    ensures var h := s.history[..n];
            && (DrawnSince(h) != [] ==> LastLogin(h).Some?)
            && forall k | 0 <= k < |DrawnSince(h)| :: DrawnSince(h)[k] == NumberedSno(k, LastLogin(h).value.salt)
  {
    PrefixNumbered(aes, mac, acts, s, n);
  }

  /** So within one login two draws give the same command nonce exactly when they are a multiple of
      256 draws apart. */
  lemma NonceReuse(aes: Aes, mac: Mac, acts: seq<Action>, s: State, j: nat, k: nat)
    requires Run(aes, mac, acts) == Some(s) && j < k < |DrawnSince(s.history)|
    ensures CommandNonce(mac, DrawnSince(s.history)[j]) == CommandNonce(mac, DrawnSince(s.history)[k])
       <==> (k - j) % 256 == 0
  {
    var h := s.history;
    assert h[..|h|] == h;
    SnosInOrder(aes, mac, acts, s, |h|);
    NonceRepeats(mac, LastLogin(h).value.salt, j, k);
    ResiduesEqual(j, k);
  }

  // ----- packets -----

  /** Every packet handed to the transport comes from one Send: it is the encryption of that call's
      command, under the key in force where the call read the session, with the nonce of the serial
      number it drew; that number is the next one of the login in force at the draw. The two places
      are determined by the packet. */
  lemma EveryPacket(aes: Aes, mac: Mac, acts: seq<Action>, s: State, w: nat)
    returns (a: nat, d: nat)
    requires Run(aes, mac, acts) == Some(s) && w < |s.history| && s.history[w].Wrote?
    ensures var h := s.history;
            && PacketFrom(aes, mac, h, w, a, d)
            && LastLogin(h[..d]).Some?
            && h[d].sno == NumberedSno(|DrawnSince(h[..d])|, LastLogin(h[..d]).value.salt)
            && forall a', d' | PacketFrom(aes, mac, h, w, a', d') :: a' == a && d' == d
  {
    var h := s.history;
    RunKeeps(aes, mac, acts);
    assert PacketOk(aes, mac, h, w);
    a, d :| PacketFrom(aes, mac, h, w, a, d);
    DrawnNext(aes, mac, acts, s, d);
    forall a', d' | PacketFrom(aes, mac, h, w, a', d')
      ensures a' == a && d' == d
    {
      assert OncePerCall(h);
    }
  }

  lemma LastDraw(g: seq<Event>, e: Event)
    requires Numbered(g + [e]) && e.Drew?
    ensures LastLogin(g).Some? && e.sno == NumberedSno(|DrawnSince(g)|, LastLogin(g).value.salt)
  {
    AppendOne(g, e);
    assert DrawnSince(g + [e])[|DrawnSince(g)|] == e.sno;
  }

  /** The draw at d takes the next number of the login in force. */
  ghost predicate TakesNext(h: seq<Event>, d: nat)
    requires d < |h| && h[d].Drew?
  {
    && LastLogin(h[..d]).Some?
    && h[d].sno == NumberedSno(|DrawnSince(h[..d])|, LastLogin(h[..d]).value.salt)
  }

  lemma DrawnNext(aes: Aes, mac: Mac, acts: seq<Action>, s: State, d: nat)
    requires Run(aes, mac, acts) == Some(s) && d < |s.history| && s.history[d].Drew?
    ensures TakesNext(s.history, d)
  {
    var h := s.history;
    PrefixNumbered(aes, mac, acts, s, d + 1);
    assert h[..d + 1] == h[..d] + [h[d]];
    LastDraw(h[..d], h[d]);
  }

  /** If no login was committed between the two critical sections of a Send, its packet is under the
      key in force at the draw, and a node holding that key recovers the command. */
  lemma UntornSendIsOpened(aes: Aes, mac: Mac, h: seq<Event>, w: nat, a: nat, d: nat)
    requires PacketFrom(aes, mac, h, w, a, d) && NoCommit(h, a, d)
    ensures LastLogin(h[..d]).Some?
    ensures PeerOpens(aes, LastLogin(h[..d]).value.key, mac, h[w].packet) == Success(Encoded(h[a].cmd))
  {
    var g := h[..d];
    assert g[..a] == h[..a];
    assert NoCommit(g, a, |g|);
    KeyStays(g, a);
    PeerRecovers(aes, LastLogin(h[..a]).value.key, mac, h[d].sno, Encoded(h[a].cmd));
  }

  /** And if the command came from a builder, the node decodes it to what that builder call means. */
  lemma NodeUnderstands(aes: Aes, mac: Mac, h: seq<Event>, w: nat, a: nat, d: nat, call: CommandDecoder.Call)
    requires PacketFrom(aes, mac, h, w, a, d) && NoCommit(h, a, d)
    requires call.Valid() && h[a].cmd == CommandDecoder.Built(call)
    ensures LastLogin(h[..d]).Some?
    ensures var heard := PeerOpens(aes, LastLogin(h[..d]).value.key, mac, h[w].packet);
            heard.Success? && CommandDecoder.Decode(heard.value) == Some(CommandDecoder.Meaning(call))
  {
    UntornSendIsOpened(aes, mac, h, w, a, d);
    CommandDecoder.DecodeBuilt(call);
  }

  lemma {:induction false} DrawsGrow(h: seq<Event>, i: nat, j: nat)
    requires i < j <= |h| && NoCommit(h, i, j) && h[i].Drew?
    ensures |DrawnSince(h[..i])| < |DrawnSince(h[..j])| && LastLogin(h[..i]) == LastLogin(h[..j])
  {
    assert h[..j] == h[..j - 1] + [h[j - 1]];
    AppendOne(h[..j - 1], h[j - 1]);
    if i < j - 1 {
      DrawsGrow(h, i, j - 1);
    }
  }

  lemma ResiduesEqual(j: nat, k: nat)
    ensures j % 256 == k % 256 <==> (k - j) % 256 == 0
  {
  }

  lemma SnosEqual(salt: Pair, j: nat, k: nat)
    ensures NumberedSno(j, salt) == NumberedSno(k, salt) <==> (k - j) % 256 == 0
  {
    ResiduesEqual(j, k);
    var mac: Mac := Zeros(6);
    CommandNonceInjective(mac, NumberedSno(j, salt), NumberedSno(k, salt));
    NonceRepeats(mac, salt, j, k);
  }

  /** The draw at d' is a positive number of draws after the one at d, and has the same serial number
      exactly when that number is a multiple of 256. */
  ghost predicate Apart(h: seq<Event>, d: nat, d': nat)
    requires d < |h| && d' < |h| && h[d].Drew? && h[d'].Drew?
  {
    var apart := |DrawnSince(h[..d'])| - |DrawnSince(h[..d])|;
    apart > 0 && (h[d].sno == h[d'].sno <==> apart % 256 == 0)
  }

  /** Within one login, a later draw has a higher number, and the same serial number exactly when it
      is a multiple of 256 draws later. */
  lemma DrawsDiffer(h: seq<Event>, d: nat, d': nat)
    requires d < d' < |h| && NoCommit(h, d, d') && h[d].Drew? && h[d'].Drew?
    requires TakesNext(h, d) && TakesNext(h, d')
    ensures Apart(h, d, d')
  {
    DrawsGrow(h, d, d');
    SnosEqual(LastLogin(h[..d]).value.salt, |DrawnSince(h[..d])|, |DrawnSince(h[..d'])|);
  }

  lemma RunDrawsDiffer(aes: Aes, mac: Mac, acts: seq<Action>, s: State, d: nat, d': nat)
    requires Run(aes, mac, acts) == Some(s)
    requires d < d' < |s.history| && NoCommit(s.history, d, d') && s.history[d].Drew? && s.history[d'].Drew?
    ensures Apart(s.history, d, d')
  {
    DrawnNext(aes, mac, acts, s, d);
    DrawnNext(aes, mac, acts, s, d');
    DrawsDiffer(s.history, d, d');
  }

  lemma PacketStartsWithSno(aes: Aes, mac: Mac, h: seq<Event>, w: nat, a: nat, d: nat)
    requires PacketFrom(aes, mac, h, w, a, d)
    ensures d < |h| && h[d].Drew? && |h[w].packet| >= 3 && h[w].packet[..3] == h[d].sno
  {
  }

  /** Two packets drawn for within one login carry different serial numbers, and so differ, unless
      their draws are a positive multiple of 256 apart. */
  lemma PacketsDiffer(aes: Aes, mac: Mac, acts: seq<Action>, s: State,
                      w: nat, a: nat, d: nat, w': nat, a': nat, d': nat)
    requires Run(aes, mac, acts) == Some(s)
    requires PacketFrom(aes, mac, s.history, w, a, d) && PacketFrom(aes, mac, s.history, w', a', d')
    requires d < d' && NoCommit(s.history, d, d')
    ensures Apart(s.history, d, d')
    ensures var (p, p') := (s.history[w].packet, s.history[w'].packet);
            && |p| >= 3 && |p'| >= 3
            && (p[..3] == p'[..3] <==> s.history[d].sno == s.history[d'].sno)
  {
    PacketStartsWithSno(aes, mac, s.history, w, a, d);
    PacketStartsWithSno(aes, mac, s.history, w', a', d');
    RunDrawsDiffer(aes, mac, acts, s, d, d');
  }

  // ----- the subscription -----

  /** The subscription flag is up exactly while some call is between claiming and giving it back,
      and at most one call ever is. */
  lemma OneSubscriber(aes: Aes, mac: Mac, acts: seq<Action>, s: State, t: nat, u: nat)
    requires Run(aes, mac, acts) == Some(s) && t in s.threads && u in s.threads
    ensures s.notifyActive <==> exists x :: x in s.threads && Holds(s.threads[x])
    ensures Holds(s.threads[t]) && Holds(s.threads[u]) ==> t == u
  {
    RunHolder(aes, mac, acts, s);
  }

  lemma RunHolder(aes: Aes, mac: Mac, acts: seq<Action>, s: State)
    requires Run(aes, mac, acts) == Some(s)
    ensures OneHolder(s)
  {
    RunKeeps(aes, mac, acts);
  }

  lemma ClaimStep(aes: Aes, s: State, t: nat)
    requires Enabled(s, Claim(t))
    ensures Step(aes, s, Claim(t)).threads[t] == if s.notifyActive then NotifyBusy else NotifyClaimed
    ensures !Holds(s.threads[t])
  {
  }

  /** A call that has returned an error, or whose pump is done, does not hold the subscription; and
      the next call is turned away exactly when another still does. */
  lemma ClaimRefusedIff(aes: Aes, mac: Mac, acts: seq<Action>, s: State, t: nat)
    requires Run(aes, mac, acts) == Some(s) && Enabled(s, Claim(t))
    ensures Step(aes, s, Claim(t)).threads[t] == NotifyBusy
       <==> exists x :: x in s.threads && x != t && Holds(s.threads[x])
    ensures Step(aes, s, Claim(t)).threads[t] in {NotifyBusy, NotifyClaimed}
  {
    RunHolder(aes, mac, acts, s);
    ClaimStep(aes, s, t);
    if s.notifyActive {
      var x :| x in s.threads && Holds(s.threads[x]);
      assert x != t;
    }
  }

  /** The pump gives the subscription back before it closes its channel. So while the channel of one
      subscriber is open, another is let in exactly when the first one's pump stands between the two
      and no third call holds the subscription. */
  lemma OverlapIff(aes: Aes, mac: Mac, acts: seq<Action>, s: State, t: nat, u: nat)
    requires Run(aes, mac, acts) == Some(s) && t != u && Enabled(s, Claim(u))
    requires t in s.threads && HasPump(s.threads[t]) && !s.threads[t].PumpClosed?
    ensures Step(aes, s, Claim(u)).threads[u] == NotifyClaimed
       <==> s.threads[t].PumpReleased? && forall x | x in s.threads :: !Holds(s.threads[x])
  {
    ClaimRefusedIff(aes, mac, acts, s, u);
  }

  // ----- the pump -----

  /** What has been received and what waits in the channel are, in order, all that should come, or all
      but the last, which the pump has in hand and loses only to a cancellation; the channel never
      holds more than 64. */
  ghost predicate Delivers(p: Phase, all: seq<Notification>)
    requires HasPump(p)
  {
    var m := p.pump;
    && m.delivered + m.buffer <= all
    && |all| <= |m.delivered + m.buffer| + 1
    && |m.buffer| <= 64
    && (m.delivered + m.buffer != all ==> m.inHand.Some? && all == m.delivered + m.buffer + [m.inHand.value])
    && (!p.Pumping? && !m.cancelled ==> m.delivered + m.buffer == all)
  }

  lemma PumpDelivers(p: Phase, all: seq<Notification>)
    requires HasPump(p) && p.pump.delivered + p.pump.buffer + Held(p.pump) == all && |p.pump.buffer| <= 64
    requires !p.Pumping? && p.pump.inHand.Some? ==> p.pump.cancelled
    ensures Delivers(p, all)
  {
    if p.pump.inHand.None? {
      assert p.pump.delivered + p.pump.buffer + [] == p.pump.delivered + p.pump.buffer;
    }
  }

  /** In every run, what a pump delivers are the readable packets of those it has taken, under the key
      in force at the subscription. */
  lemma PumpRefines(aes: Aes, mac: Mac, acts: seq<Action>, s: State, t: nat)
    requires Run(aes, mac, acts) == Some(s) && t in s.threads && HasPump(s.threads[t])
    ensures var m := s.threads[t].pump;
            && ReadAt(s.history, t, m.subscribedAt, Subscribed(t), m.key)
            && Delivers(s.threads[t], Readable(aes, m.key, mac, m.consumed))
  {
    RunKeeps(aes, mac, acts);
    var p := s.threads[t];
    assert ThreadOk(aes, mac, s.history, t, p);
    PumpDelivers(p, Readable(aes, p.pump.key, mac, p.pump.consumed));
  }

  /** The packets of a device that seals the k-th of its notifications under the k-th sno. */
  function AllSealed(aes: Aes, key: Block, mac: Mac, snos: seq<Sno>, ns: seq<Notification>): (raws: seq<seq<byte>>)
    requires |snos| == |ns|
    ensures |raws| == |ns|
  {
    if ns == [] then []
    else
      var m := |ns| - 1;
      AllSealed(aes, key, mac, snos[..m], ns[..m]) + [Sealed(aes, key, mac, snos[m], ns[m])]
  }

  lemma SealedSnoc(aes: Aes, key: Block, mac: Mac, raws: seq<seq<byte>>, ns: seq<Notification>,
                   sno: Sno, n: Notification)
    requires Readable(aes, key, mac, raws) == ns && |n.payload| == 10
    ensures Readable(aes, key, mac, raws + [Sealed(aes, key, mac, sno, n)]) == ns + [n]
  {
    OpenSealed(aes, key, mac, sno, n);
    ReadableSnoc(aes, key, mac, raws, Sealed(aes, key, mac, sno, n));
  }

  lemma {:induction false} SealedReadable(aes: Aes, key: Block, mac: Mac, snos: seq<Sno>, ns: seq<Notification>)
    requires |snos| == |ns| && forall k | 0 <= k < |ns| :: |ns[k].payload| == 10
    ensures Readable(aes, key, mac, AllSealed(aes, key, mac, snos, ns)) == ns
  {
    if ns != [] {
      var m := |ns| - 1;
      var raws := AllSealed(aes, key, mac, snos[..m], ns[..m]);
      SealedReadable(aes, key, mac, snos[..m], ns[..m]);
      SealedSnoc(aes, key, mac, raws, ns[..m], snos[m], ns[m]);
      assert ns[..m] + [ns[m]] == ns;
    }
  }

  /** So when the packets a pump has taken are those a device sealed under the subscription's key,
      the consumer has them in order, all but at most the last, and all of them once the pump has
      ended without a cancellation. */
  lemma ConsumerGetsWhatWasSent(aes: Aes, mac: Mac, acts: seq<Action>, s: State, t: nat,
                                snos: seq<Sno>, ns: seq<Notification>)
    requires Run(aes, mac, acts) == Some(s) && t in s.threads && HasPump(s.threads[t])
    requires |snos| == |ns| && forall k | 0 <= k < |ns| :: |ns[k].payload| == 10
    requires s.threads[t].pump.consumed == AllSealed(aes, s.threads[t].pump.key, mac, snos, ns)
    ensures Delivers(s.threads[t], ns)
  {
    SealedReadable(aes, s.threads[t].pump.key, mac, snos, ns);
    PumpRefines(aes, mac, acts, s, t);
  }

  // ----- calls that nothing disturbs -----

  lemma Extend(aes: Aes, mac: Mac, acts: seq<Action>, s: State, a: Action)
    requires Run(aes, mac, acts) == Some(s) && Enabled(s, a)
    ensures Run(aes, mac, acts + [a]) == Some(Step(aes, s, a))
  {
    assert (acts + [a])[..|acts + [a]| - 1] == acts;
  }

  lemma Take1(aes: Aes, mac: Mac, acts: seq<Action>, s: State, a: Action) returns (acts': seq<Action>, s': State)
    requires Run(aes, mac, acts) == Some(s) && Enabled(s, a)
    ensures Run(aes, mac, acts') == Some(s') && s' == Step(aes, s, a)
  {
    Extend(aes, mac, acts, s, a);
    acts', s' := acts + [a], Step(aes, s, a);
  }

  lemma SnapSteps(aes: Aes, s: State, t: nat, cmd: Command)
    requires t !in s.threads && cmd.Encodable() && s.session.loggedIn
    ensures Enabled(s, CallSend(t, cmd))
    ensures var s' := Step(aes, s, CallSend(t, cmd));
            && Enabled(s', Snap(t))
            && var snapped := SendSnapped(cmd, s.session.key, s.session.mac, |s.history|);
            Step(aes, s', Snap(t))
              == s.(threads := s.threads[t := snapped], history := s.history + [Snapped(t, cmd)])
  {
  }

  lemma SnapRuns(aes: Aes, mac: Mac, acts: seq<Action>, s: State, t: nat, cmd: Command)
    returns (acts': seq<Action>, s': State)
    requires Run(aes, mac, acts) == Some(s) && t !in s.threads && cmd.Encodable() && s.session.loggedIn
    ensures Run(aes, mac, acts') == Some(s')
    ensures s'.session == s.session && s'.history == s.history + [Snapped(t, cmd)]
    ensures s'.threads == s.threads[t := SendSnapped(cmd, s.session.key, s.session.mac, |s.history|)]
  {
    SnapSteps(aes, s, t, cmd);
    acts', s' := Take1(aes, mac, acts, s, CallSend(t, cmd));
    acts', s' := Take1(aes, mac, acts', s', Snap(t));
  }

  lemma WriteRuns(aes: Aes, mac: Mac, acts: seq<Action>, s: State, t: nat)
    returns (acts': seq<Action>, s': State)
    requires Run(aes, mac, acts) == Some(s) && t in s.threads && s.threads[t].SendSnapped?
    ensures Run(aes, mac, acts') == Some(s')
    ensures var p := s.threads[t];
            var sno := Drawn(s.session).1;
            var packet := Encrypted(aes, p.key, CommandNonce(p.mac, sno), sno, Encoded(p.cmd));
            && s'.session == Drawn(s.session).0
            && s'.history == s.history + [Drew(t, sno), Wrote(t, packet)]
  {
    acts', s' := Take1(aes, mac, acts, s, Draw(t));
    acts', s' := Take1(aes, mac, acts', s', Write(t));
  }

  /** A Send that nothing disturbs does what the sequential Send does. */
  lemma UndisturbedSend(aes: Aes, mac: Mac, acts: seq<Action>, s: State, t: nat, cmd: Command)
    returns (acts': seq<Action>, s': State)
    requires Run(aes, mac, acts) == Some(s) && t !in s.threads && cmd.Encodable()
    ensures Run(aes, mac, acts') == Some(s')
    ensures var (session, packet) := Sent(aes, s.session, cmd);
            && s'.session == session
            && match packet
               case Success(p) =>
                 s'.history == s.history + [Snapped(t, cmd), Drew(t, Drawn(s.session).1), Wrote(t, p)]
               case Failure(e) => s'.history == s.history && s'.threads == s.threads[t := SendRefused]
  {
    if s.session.loggedIn {
      acts', s' := SnapRuns(aes, mac, acts, s, t, cmd);
      acts', s' := WriteRuns(aes, mac, acts', s', t);
    } else {
      acts', s' := Take1(aes, mac, acts, s, CallSend(t, cmd));
      acts', s' := Take1(aes, mac, acts', s', Snap(t));
    }
  }

  /** What a Login that read this response is about to do. */
  function Answered(aes: Aes, name: seq<byte>, password: seq<byte>, randA: Half, salt: Pair,
                    response: Option<seq<byte>>): Phase
  {
    if response.None? then LoginRefused(ReadFailed)
    else match LoginHandshake.LoginResponse(response.value)
      case Failure(e) => LoginRefused(e)
      case Success(randB) => LoginKeyed(LoginHandshake.SessionKey(aes, name, password, randA, randB), salt)
  }

  lemma WriteSteps(aes: Aes, s: State, t: nat, name: seq<byte>, password: seq<byte>, randA: Half, salt: Pair,
                   written: bool)
    requires t !in s.threads
    ensures var call := CallLogin(t, name, password, randA, salt);
            && Enabled(s, call)
            && var s' := Step(aes, s, call);
            && Enabled(s', WritePair(t, written))
            && Step(aes, s', WritePair(t, written)) == s.(threads := s.threads[t :=
                 if written then LoginWritten(name, password, randA, salt) else LoginRefused(WriteFailed)])
  {
  }

  lemma ReadSteps(aes: Aes, s: State, t: nat, response: Option<seq<byte>>)
    requires t in s.threads && s.threads[t].LoginWritten?
    ensures var p := s.threads[t];
            && Enabled(s, ReadPair(t, response))
            && Step(aes, s, ReadPair(t, response))
                 == s.(threads := s.threads[t := Answered(aes, p.name, p.password, p.randA, p.salt, response)])
  {
  }

  function AfterCommit(s: State, t: nat, key: Block, salt: Pair): State
  {
    State(Sessions.Committed(s.session, key, salt), s.notifyActive, s.threads[t := LoginReturned],
          s.history + [Event.Committed(t, LoginKey(key, salt))])
  }

  lemma CommitSteps(aes: Aes, s: State, t: nat)
    requires t in s.threads && s.threads[t].LoginKeyed?
    ensures var p := s.threads[t];
            && Enabled(s, Commit(t))
            && Step(aes, s, Commit(t)) == AfterCommit(s, t, p.key, p.salt)
  {
  }

  /** A Login that has written its request reads the response and commits, or is refused. */
  lemma WrittenRuns(aes: Aes, mac: Mac, acts: seq<Action>, s: State, t: nat, response: Option<seq<byte>>)
    returns (acts': seq<Action>, s': State)
    requires Run(aes, mac, acts) == Some(s) && t in s.threads && s.threads[t].LoginWritten?
    ensures Run(aes, mac, acts') == Some(s')
    ensures var p := s.threads[t];
            var next := Answered(aes, p.name, p.password, p.randA, p.salt, response);
            s' == if next.LoginKeyed? then AfterCommit(s, t, next.key, next.salt)
                  else s.(threads := s.threads[t := next])
  {
    ReadSteps(aes, s, t, response);
    acts', s' := Take1(aes, mac, acts, s, ReadPair(t, response));
    if s'.threads[t].LoginKeyed? {
      CommitSteps(aes, s', t);
      acts', s' := Take1(aes, mac, acts', s', Commit(t));
    }
  }

  /** A Login that nothing disturbs does what the sequential Login does, and records its commit. */
  lemma UndisturbedLogin(aes: Aes, mac: Mac, acts: seq<Action>, s: State, t: nat, name: seq<byte>,
                         password: seq<byte>, randA: Half, salt: Pair, written: bool, response: Option<seq<byte>>)
    returns (acts': seq<Action>, s': State)
    requires Run(aes, mac, acts) == Some(s) && t !in s.threads
    ensures Run(aes, mac, acts') == Some(s')
    ensures var (session, r) := LoggedIn(aes, s.session, name, password, randA, salt, written, response);
            && s'.session == session && s'.notifyActive == s.notifyActive
            && match r
               case Success(_) =>
                 && s'.threads == s.threads[t := LoginReturned]
                 && s'.history == s.history + [Event.Committed(t, LoginKey(session.key, salt))]
               case Failure(e) => s'.threads == s.threads[t := LoginRefused(e)] && s'.history == s.history
  {
    WriteSteps(aes, s, t, name, password, randA, salt, written);
    acts', s' := Take1(aes, mac, acts, s, CallLogin(t, name, password, randA, salt));
    acts', s' := Take1(aes, mac, acts', s', WritePair(t, written));
    if written {
      acts', s' := WrittenRuns(aes, mac, acts', s', t, response);
    }
  }

  lemma ClaimSteps(aes: Aes, s: State, t: nat)
    requires t !in s.threads && !s.notifyActive
    ensures Enabled(s, CallNotifications(t))
    ensures var s' := Step(aes, s, CallNotifications(t));
            && Enabled(s', Claim(t))
            && Step(aes, s', Claim(t)) == s.(threads := s.threads[t := NotifyClaimed], notifyActive := true)
  {
  }

  lemma ClaimRuns(aes: Aes, mac: Mac, acts: seq<Action>, s: State, t: nat) returns (acts': seq<Action>, s': State)
    requires Run(aes, mac, acts) == Some(s) && t !in s.threads && !s.notifyActive
    ensures Run(aes, mac, acts') == Some(s')
    ensures s' == s.(threads := s.threads[t := NotifyClaimed], notifyActive := true)
  {
    ClaimSteps(aes, s, t);
    acts', s' := Take1(aes, mac, acts, s, CallNotifications(t));
    acts', s' := Take1(aes, mac, acts', s', Claim(t));
  }

  lemma SubscribeSteps(aes: Aes, s: State, t: nat, subscribed: bool)
    requires t in s.threads && s.threads[t].NotifyClaimed? && s.session.loggedIn
    ensures Enabled(s, ReadSession(t))
    ensures var s' := Step(aes, s, ReadSession(t));
            && Enabled(s', Subscribe(t, subscribed))
            && Step(aes, s', Subscribe(t, subscribed)) == s.(history := s.history + [Subscribed(t)], threads :=
                 s.threads[t := if subscribed
                                then Pumping(Pump(s.session.key, s.session.mac, |s.history|, [], None, [], [], false))
                                else NotifyAborting(SubscribeFailed)])
  {
  }

  lemma RefuseSteps(aes: Aes, s: State, t: nat)
    requires t in s.threads && s.threads[t].NotifyClaimed? && !s.session.loggedIn
    ensures Enabled(s, ReadSession(t))
    ensures Step(aes, s, ReadSession(t)) == s.(threads := s.threads[t := NotifyAborting(NotLoggedIn)])
  {
  }

  lemma AbortSteps(aes: Aes, s: State, t: nat)
    requires t in s.threads && s.threads[t].NotifyAborting?
    ensures Enabled(s, Abort(t))
    ensures Step(aes, s, Abort(t))
         == s.(notifyActive := false, threads := s.threads[t := NotifyRefused(s.threads[t].error)])
  {
  }

  /** Where a Notifications call with this result stands, if it read the session at the given place. */
  function Begun(r: Result<(Block, Mac)>, at: nat): Phase
  {
    match r
    case Success((key, mac)) => Pumping(Pump(key, mac, at, [], None, [], [], false))
    case Failure(e) => if e == AlreadySubscribed then NotifyBusy else NotifyRefused(e)
  }

  lemma SubscribeRuns(aes: Aes, mac: Mac, acts: seq<Action>, s: State, t: nat, subscribed: bool)
    returns (acts': seq<Action>, s': State)
    requires Run(aes, mac, acts) == Some(s) && t in s.threads && s.threads[t].NotifyClaimed? && s.session.loggedIn
    ensures Run(aes, mac, acts') == Some(s')
    ensures s'.session == s.session && s'.notifyActive == s.notifyActive
    ensures s'.threads == s.threads[t :=
              if subscribed then Begun(Success((s.session.key, s.session.mac)), |s.history|)
              else NotifyAborting(SubscribeFailed)]
  {
    SubscribeSteps(aes, s, t, subscribed);
    acts', s' := Take1(aes, mac, acts, s, ReadSession(t));
    acts', s' := Take1(aes, mac, acts', s', Subscribe(t, subscribed));
  }

  lemma AbortRuns(aes: Aes, mac: Mac, acts: seq<Action>, s: State, t: nat) returns (acts': seq<Action>, s': State)
    requires Run(aes, mac, acts) == Some(s) && t in s.threads && s.threads[t].NotifyAborting?
    ensures Run(aes, mac, acts') == Some(s')
    ensures s' == s.(notifyActive := false, threads := s.threads[t := NotifyRefused(s.threads[t].error)])
  {
    AbortSteps(aes, s, t);
    acts', s' := Take1(aes, mac, acts, s, Abort(t));
  }

  /** Once it has claimed the subscription, Notifications starts its pump or gives it back. */
  lemma ClaimedRuns(aes: Aes, mac: Mac, acts: seq<Action>, s: State, t: nat, subscribed: bool)
    returns (acts': seq<Action>, s': State)
    requires Run(aes, mac, acts) == Some(s) && t in s.threads && s.threads[t].NotifyClaimed? && s.notifyActive
    ensures Run(aes, mac, acts') == Some(s')
    ensures var (active, r) := Subscribing(s.session, false, subscribed);
            && s'.session == s.session && s'.notifyActive == active
            && s'.threads == s.threads[t := Begun(r, |s.history|)]
  {
    if s.session.loggedIn {
      acts', s' := SubscribeRuns(aes, mac, acts, s, t, subscribed);
    } else {
      RefuseSteps(aes, s, t);
      acts', s' := Take1(aes, mac, acts, s, ReadSession(t));
    }
    if !s.session.loggedIn || !subscribed {
      acts', s' := AbortRuns(aes, mac, acts', s', t);
    }
  }

  /** A Notifications call that nothing disturbs does what the sequential one does: it raises the flag
      or leaves it alike, and starts a pump with the key and address the sequential one returns. */
  lemma UndisturbedNotifications(aes: Aes, mac: Mac, acts: seq<Action>, s: State, t: nat, subscribed: bool)
    returns (acts': seq<Action>, s': State)
    requires Run(aes, mac, acts) == Some(s) && t !in s.threads
    ensures Run(aes, mac, acts') == Some(s')
    ensures var (active, r) := Subscribing(s.session, s.notifyActive, subscribed);
            && s'.session == s.session && s'.notifyActive == active
            && s'.threads == s.threads[t := Begun(r, |s.history|)]
  {
    if s.notifyActive {
      acts', s' := Take1(aes, mac, acts, s, CallNotifications(t));
      acts', s' := Take1(aes, mac, acts', s', Claim(t));
    } else {
      acts', s' := ClaimRuns(aes, mac, acts, s, t);
      acts', s' := ClaimedRuns(aes, mac, acts', s', t, subscribed);
    }
  }

  // ----- runs that show what does not hold -----

  function Response(randB: Half): seq<byte> { [LoginHandshake.LOGIN_RESPONSE_TAG] + randB + Zeros(8) }

  /** A login whose node answers runs to its commit. */
  lemma LoginRuns(aes: Aes, mac: Mac, acts: seq<Action>, s: State, t: nat, randA: Half, randB: Half, salt: Pair)
    returns (acts': seq<Action>, s': State)
    requires Run(aes, mac, acts) == Some(s) && t !in s.threads
    ensures Run(aes, mac, acts') == Some(s')
    ensures var key := LoginHandshake.SessionKey(aes, [], [], randA, randB);
            && s'.session == Sessions.Committed(s.session, key, salt)
            && s'.history == s.history + [Event.Committed(t, LoginKey(key, salt))]
            && s'.threads == s.threads[t := LoginReturned]
            && s'.notifyActive == s.notifyActive
  {
    assert Response(randB)[1..9] == randB;
    acts', s' := UndisturbedLogin(aes, mac, acts, s, t, [], [], randA, salt, true, Some(Response(randB)));
  }

  /** A commit between the two critical sections tears a Send: for any two logins with different
      randA, some run writes a packet under the key of the first, which is no longer in force, with
      the first number of the second. */
  lemma TornSend(aes: Aes, mac: Mac, cmd: Command, randA: Half, randA': Half, randB: Half)
    returns (acts: seq<Action>, s: State, w: nat, a: nat, d: nat)
    requires Invertible(aes) && cmd.Encodable() && randA != randA'
    ensures Run(aes, mac, acts) == Some(s)
    ensures PacketFrom(aes, mac, s.history, w, a, d) && s.history[a].cmd == cmd
    ensures var h := s.history;
            && LastLogin(h[..d]).Some?
            && LastLogin(h[..a]).value.key == LoginHandshake.SessionKey(aes, [], [], randA, randB)
            && LastLogin(h[..d]).value.key == LoginHandshake.SessionKey(aes, [], [], randA', randB)
            && LastLogin(h[..a]).value.key != LastLogin(h[..d]).value.key
            && h[d].sno == NumberedSno(0, LastLogin(h[..d]).value.salt)
            && LastLogin(h[..a]).value.salt != LastLogin(h[..d]).value.salt
  {
    LoginHandshake.SessionKeyFresh(aes, [], [], randA, randB, randA', randB);
    acts, s := LoginRuns(aes, mac, [], Initial(mac), 0, randA, randB, [0, 0]);
    acts, s := SnapRuns(aes, mac, acts, s, 1, cmd);
    acts, s := LoginRuns(aes, mac, acts, s, 2, randA', randB, [1, 1]);
    var before := s;
    acts, s := WriteRuns(aes, mac, acts, s, 1);
    a, d, w := 1, 3, 4;
    assert s.history[..1] == [before.history[0]];
    assert s.history[..3] == before.history;
  }

  lemma PumpStarts(aes: Aes, mac: Mac, acts: seq<Action>, s: State, t: nat) returns (acts': seq<Action>, s': State)
    requires Run(aes, mac, acts) == Some(s) && t !in s.threads && s.session.loggedIn && !s.notifyActive
    ensures Run(aes, mac, acts') == Some(s')
    ensures t in s'.threads && s'.threads[t].Pumping? && s'.threads[t].pump.inHand == None
    ensures s'.threads.Keys == s.threads.Keys + {t}
  {
    acts', s' := UndisturbedNotifications(aes, mac, acts, s, t, true);
  }

  lemma PumpReleases(aes: Aes, mac: Mac, acts: seq<Action>, s: State, t: nat) returns (acts': seq<Action>, s': State)
    requires Run(aes, mac, acts) == Some(s) && t in s.threads
    requires s.threads[t].Pumping? && s.threads[t].pump.inHand == None
    ensures Run(aes, mac, acts') == Some(s')
    ensures t in s'.threads && s'.threads[t].PumpReleased? && !s'.notifyActive
    ensures s'.threads.Keys == s.threads.Keys
  {
    acts', s' := Take1(aes, mac, acts, s, SeeEnd(t));
    acts', s' := Take1(aes, mac, acts', s', Release(t));
  }

  /** The pump gives the subscription back before it closes its channel, so some run lets a second
      subscriber in while the channel of the first is still open. */
  lemma SubscriptionsOverlap(aes: Aes, mac: Mac) returns (acts: seq<Action>, s: State)
    ensures Run(aes, mac, acts) == Some(s)
    ensures 1 in s.threads && s.threads[1].PumpReleased?
    ensures 2 in s.threads && s.threads[2].NotifyClaimed?
  {
    acts, s := LoginRuns(aes, mac, [], Initial(mac), 0, Zeros(8), Zeros(8), [0, 0]);
    acts, s := PumpStarts(aes, mac, acts, s, 1);
    acts, s := PumpReleases(aes, mac, acts, s, 1);
    acts, s := ClaimRuns(aes, mac, acts, s, 2);
  }
}
