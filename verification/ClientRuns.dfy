/** Every interleaving of any number of concurrent Login, Send and Notifications calls on one client.

  A step is one critical section, one channel operation or one transport operation of one caller;
  the locks of the original make each of these atomic. Callers are numbered, and a number is used
  for one call only. What the transport and the application do (results of transport operations,
  incoming packets, cancellation, reading the notification channel) are steps with arbitrary
  arguments, so the runs below are all the runs there are.
 */
module ClientRuns {
  import opened Bytes
  import opened Results
  import opened PacketCipher
  import LoginHandshake
  import opened Commands
  import opened Notifications
  import opened Sessions

  const CHANNEL_CAPACITY := 64

  // ----- the state -----

  /** The goroutine that moves packets from the transport's channel, raw, to the channel out. */
  datatype Pump = Pump(key: Block, mac: Mac, subscribedAt: nat, consumed: seq<seq<byte>>,
                       inHand: Option<Notification>, buffer: seq<Notification>,
                       delivered: seq<Notification>, cancelled: bool)

  /** Where a call stands. `at`, `drawnAt` and `subscribedAt` are positions in the history. */
  datatype Phase =
    | SendCalled(cmd: Command)
    | SendSnapped(cmd: Command, key: Block, mac: Mac, at: nat)
    | SendDrawn(cmd: Command, key: Block, mac: Mac, at: nat, sno: Sno, drawnAt: nat)
    | SendReturned
    | SendRefused
    | LoginCalled(name: seq<byte>, password: seq<byte>, randA: Half, salt: Pair)
    | LoginWritten(name: seq<byte>, password: seq<byte>, randA: Half, salt: Pair)
    | LoginKeyed(key: Block, salt: Pair)
    | LoginReturned
    | LoginRefused(error: Error)
    | NotifyCalled
    | NotifyBusy
    | NotifyClaimed
    | NotifyKeyed(key: Block, mac: Mac, at: nat)
    | NotifyAborting(error: Error)
    | NotifyRefused(error: Error)
    | Pumping(pump: Pump)
    | PumpLeaving(pump: Pump)
    | PumpReleased(pump: Pump)
    | PumpClosed(pump: Pump)

  datatype LoginKey = LoginKey(key: Block, salt: Pair)

  /** What happened, in the order in which it happened. */
  datatype Event =
    | Committed(tid: nat, login: LoginKey)
    | Snapped(tid: nat, cmd: Command)
    | Drew(tid: nat, sno: Sno)
    | Wrote(tid: nat, packet: seq<byte>)
    | Subscribed(tid: nat)

  datatype State = State(session: Session, notifyActive: bool, threads: map<nat, Phase>, history: seq<Event>)

  function Initial(mac: Mac): State
  {
    State(NewSession(mac), false, map[], [])
  }

  // ----- the steps -----

  datatype Action =
    // a new call
    | CallSend(tid: nat, cmd: Command)
    | CallLogin(tid: nat, name: seq<byte>, password: seq<byte>, randA: Half, salt: Pair)
    | CallNotifications(tid: nat)
    // Send
    | Snap(tid: nat)
    | Draw(tid: nat)
    | Write(tid: nat)
    // Login
    | WritePair(tid: nat, ok: bool)
    | ReadPair(tid: nat, response: Option<seq<byte>>)
    | Commit(tid: nat)
    // Notifications
    | Claim(tid: nat)
    | ReadSession(tid: nat)
    | Subscribe(tid: nat, ok: bool)
    | Abort(tid: nat)
    // the pump, its channels and its context
    | Take(tid: nat, raw: seq<byte>)
    | Put(tid: nat)
    | Receive(tid: nat)
    | Cancel(tid: nat)
    | SeeCancel(tid: nat)
    | SeeEnd(tid: nat)
    | Release(tid: nat)
    | CloseOut(tid: nat)

  predicate HasPump(p: Phase) { p.Pumping? || p.PumpLeaving? || p.PumpReleased? || p.PumpClosed? }

  /** When a step can be taken. */
  predicate Enabled(s: State, a: Action)
  {
    match a
    case CallSend(t, cmd) => t !in s.threads && cmd.Encodable()
    case CallLogin(t, _, _, _, _) => t !in s.threads
    case CallNotifications(t) => t !in s.threads
    case _ => a.tid in s.threads && EnabledIn(s.threads[a.tid], a)
  }

  predicate EnabledIn(p: Phase, a: Action)
  {
    match a
    case Snap(_) => p.SendCalled?
    case Draw(_) => p.SendSnapped?
    case Write(_) => p.SendDrawn?
    case WritePair(_, _) => p.LoginCalled?
    case ReadPair(_, _) => p.LoginWritten?
    case Commit(_) => p.LoginKeyed?
    case Claim(_) => p.NotifyCalled?
    case ReadSession(_) => p.NotifyClaimed?
    case Subscribe(_, _) => p.NotifyKeyed?
    case Abort(_) => p.NotifyAborting?
    case Take(_, _) => p.Pumping? && p.pump.inHand.None?
    case Put(_) => p.Pumping? && p.pump.inHand.Some? && |p.pump.buffer| < CHANNEL_CAPACITY
    case Receive(_) => HasPump(p) && p.pump.buffer != []
    case Cancel(_) => p.Pumping?
    case SeeCancel(_) => p.Pumping? && p.pump.cancelled
    case SeeEnd(_) => p.Pumping? && p.pump.inHand.None?
    case Release(_) => p.PumpLeaving?
    case CloseOut(_) => p.PumpReleased?
    case _ => false
  }

  function WithPump(p: Phase, pump: Pump): Phase
    requires HasPump(p)
  {
    p.(pump := pump)
  }

  /** The session, the subscription flag, the caller's next phase, and what is recorded. */
  datatype Effect = Effect(session: Session, notifyActive: bool, phase: Phase, events: seq<Event>)

  function StartOf(s: State, a: Action): Effect
    requires a.CallSend? || a.CallLogin? || a.CallNotifications?
  {
    var p := if a.CallSend? then SendCalled(a.cmd)
             else if a.CallLogin? then LoginCalled(a.name, a.password, a.randA, a.salt)
             else NotifyCalled;
    Effect(s.session, s.notifyActive, p, [])
  }

  function SendStep(aes: Aes, s: State, p: Phase, a: Action): Effect
    requires EnabledIn(p, a) && (a.Snap? || a.Draw? || a.Write?)
  {
    var n := |s.history|;
    match a
    case Snap(t) =>
      if !s.session.loggedIn then Effect(s.session, s.notifyActive, SendRefused, [])
      else Effect(s.session, s.notifyActive, SendSnapped(p.cmd, s.session.key, s.session.mac, n), [Snapped(t, p.cmd)])
    case Draw(t) =>
      var (session, sno) := Drawn(s.session);
      Effect(session, s.notifyActive, SendDrawn(p.cmd, p.key, p.mac, p.at, sno, n), [Drew(t, sno)])
    case Write(t) =>
      var packet := Encrypted(aes, p.key, CommandNonce(p.mac, p.sno), p.sno, Encoded(p.cmd));
      Effect(s.session, s.notifyActive, SendReturned, [Wrote(t, packet)])
  }

  function LoginStep(aes: Aes, s: State, p: Phase, a: Action): Effect
    requires EnabledIn(p, a) && (a.WritePair? || a.ReadPair? || a.Commit?)
  {
    match a
    case WritePair(_, ok) =>
      Effect(s.session, s.notifyActive,
             if ok then LoginWritten(p.name, p.password, p.randA, p.salt) else LoginRefused(WriteFailed), [])
    case ReadPair(_, response) =>
      var next :=
        if response.None? then LoginRefused(ReadFailed)
        else match LoginHandshake.LoginResponse(response.value)
          case Failure(e) => LoginRefused(e)
          case Success(randB) =>
            LoginKeyed(LoginHandshake.SessionKey(aes, p.name, p.password, p.randA, randB), p.salt);
      Effect(s.session, s.notifyActive, next, [])
    case Commit(t) =>
      Effect(Sessions.Committed(s.session, p.key, p.salt), s.notifyActive, LoginReturned,
             [Event.Committed(t, LoginKey(p.key, p.salt))])
  }

  function NotifyStep(s: State, p: Phase, a: Action): Effect
    requires EnabledIn(p, a) && (a.Claim? || a.ReadSession? || a.Subscribe? || a.Abort?)
  {
    var n := |s.history|;
    match a
    case Claim(_) => Effect(s.session, true, if s.notifyActive then NotifyBusy else NotifyClaimed, [])
    case ReadSession(t) =>
      if !s.session.loggedIn then Effect(s.session, s.notifyActive, NotifyAborting(NotLoggedIn), [])
      else Effect(s.session, s.notifyActive, NotifyKeyed(s.session.key, s.session.mac, n), [Subscribed(t)])
    case Subscribe(_, ok) =>
      Effect(s.session, s.notifyActive,
             if ok then Pumping(Pump(p.key, p.mac, p.at, [], None, [], [], false))
             else NotifyAborting(SubscribeFailed), [])
    case Abort(_) => Effect(s.session, false, NotifyRefused(p.error), [])
  }

  predicate PumpAction(a: Action)
  {
    a.Take? || a.Put? || a.Receive? || a.Cancel? || a.SeeCancel? || a.SeeEnd? || a.Release? || a.CloseOut?
  }

  function PumpPhase(aes: Aes, p: Phase, a: Action): Phase
    requires EnabledIn(p, a) && PumpAction(a)
  {
    var m := p.pump;
    match a
    case Take(_, raw) =>
      var hand := match Opened(aes, m.key, m.mac, raw) case Failure(_) => None case Success(n) => Some(n);
      Pumping(m.(consumed := m.consumed + [raw], inHand := hand))
    case Put(_) => Pumping(m.(inHand := None, buffer := m.buffer + [m.inHand.value]))
    case Receive(_) => WithPump(p, m.(buffer := m.buffer[1..], delivered := m.delivered + [m.buffer[0]]))
    case Cancel(_) => Pumping(m.(cancelled := true))
    case SeeCancel(_) => PumpLeaving(m)
    case SeeEnd(_) => PumpLeaving(m)
    case Release(_) => PumpReleased(m)
    case CloseOut(_) => PumpClosed(m)
  }

  function EffectOf(aes: Aes, s: State, a: Action): Effect
    requires Enabled(s, a)
  {
    if a.CallSend? || a.CallLogin? || a.CallNotifications? then StartOf(s, a)
    else
      var p := s.threads[a.tid];
      if a.Snap? || a.Draw? || a.Write? then SendStep(aes, s, p, a)
      else if a.WritePair? || a.ReadPair? || a.Commit? then LoginStep(aes, s, p, a)
      else if a.Claim? || a.ReadSession? || a.Subscribe? || a.Abort? then NotifyStep(s, p, a)
      else Effect(s.session, if a.Release? then false else s.notifyActive, PumpPhase(aes, p, a), [])
  }

  function Step(aes: Aes, s: State, a: Action): State
    requires Enabled(s, a)
  {
    var e := EffectOf(aes, s, a);
    State(e.session, e.notifyActive, s.threads[a.tid := e.phase], s.history + e.events)
  }

  /** The state after a run of steps, if each of them could be taken. */
  function Run(aes: Aes, mac: Mac, acts: seq<Action>): Option<State>
  {
    if acts == [] then Some(Initial(mac))
    else match Run(aes, mac, acts[..|acts| - 1])
      case None => None
      case Some(s) => if Enabled(s, acts[|acts| - 1]) then Some(Step(aes, s, acts[|acts| - 1])) else None
  }

  // ----- reading the history -----

  /** The login in force after a history: the last one committed. */
  function LastLogin(h: seq<Event>): Option<LoginKey>
  {
    if h == [] then None
    else match h[|h| - 1]
      case Committed(_, login) => Some(login)
      case _ => LastLogin(h[..|h| - 1])
  }

  /** The serial numbers drawn since the last commit, in the order of the draws. */
  function DrawnSince(h: seq<Event>): seq<Sno>
  {
    if h == [] then []
    else match h[|h| - 1]
      case Committed(_, _) => []
      case Drew(_, sno) => DrawnSince(h[..|h| - 1]) + [sno]
      case _ => DrawnSince(h[..|h| - 1])
  }

  ghost predicate NoCommit(h: seq<Event>, from: nat, to: nat)
  {
    forall i | from <= i < to && i < |h| :: !h[i].Committed?
  }

  /** The notifications a client with the given key makes of a sequence of packets. */
  function Readable(aes: Aes, key: Block, mac: Mac, raws: seq<seq<byte>>): seq<Notification>
  {
    if raws == [] then []
    else
      var earlier := Readable(aes, key, mac, raws[..|raws| - 1]);
      match Opened(aes, key, mac, raws[|raws| - 1])
      case Success(n) => earlier + [n]
      case Failure(_) => earlier
  }

  lemma Prefixes<T>(h: seq<T>, e: seq<T>, n: nat)
    requires n <= |h|
    ensures (h + e)[..n] == h[..n]
  {
  }

  lemma {:induction false} LoginStays(h: seq<Event>, n: nat)
    requires n <= |h| && LastLogin(h[..n]).Some?
    ensures LastLogin(h).Some?
  {
    if n == |h| {
      assert h[..n] == h;
    } else {
      assert h[..|h| - 1][..n] == h[..n];
      LoginStays(h[..|h| - 1], n);
    }
  }

  /** The key in force does not change without a commit. */
  lemma {:induction false} KeyStays(h: seq<Event>, n: nat)
    requires n <= |h| && NoCommit(h, n, |h|)
    ensures LastLogin(h) == LastLogin(h[..n])
  {
    if n == |h| {
      assert h[..n] == h;
    } else {
      var g := h[..|h| - 1];
      assert g[..n] == h[..n];
      assert !h[|h| - 1].Committed?;
      assert NoCommit(g, n, |g|);
      KeyStays(g, n);
    }
  }

  // ----- what every run keeps -----

  /** The session record is what the history says, and its counter numbers the next draw. */
  ghost predicate SessionOk(mac: Mac, session: Session, h: seq<Event>)
  {
    && session.mac == mac
    && session.loggedIn == LastLogin(h).Some?
    && (session.loggedIn ==> LastLogin(h) == Some(LoginKey(session.key, session.salt)))
    && session.counter == ByteOf(|DrawnSince(h)|)
  }

  /** The draws since the last commit are numbered 0, 1, 2 and so on, under that login's salt. */
  ghost predicate Numbered(h: seq<Event>)
  {
    && (LastLogin(h).None? ==> DrawnSince(h) == [])
    && (LastLogin(h).Some? ==>
          forall k | 0 <= k < |DrawnSince(h)| :: DrawnSince(h)[k] == NumberedSno(k, LastLogin(h).value.salt))
  }

  ghost predicate EveryLoginNumbered(h: seq<Event>)
  {
    forall n | 0 <= n <= |h| :: Numbered(h[..n])
  }

  /** Position `at` is where the caller read the session, and it read what was in force. */
  ghost predicate ReadAt(h: seq<Event>, t: nat, at: nat, event: Event, key: Block)
  {
    && at < |h| && h[at] == event && event.tid == t
    && LastLogin(h[..at]).Some? && key == LastLogin(h[..at]).value.key
  }

  /** The pump has lost nothing, made nothing up, and kept the order. */
  ghost predicate PumpOk(aes: Aes, mac: Mac, h: seq<Event>, t: nat, m: Pump)
  {
    && ReadAt(h, t, m.subscribedAt, Subscribed(t), m.key) && m.mac == mac
    && m.delivered + m.buffer + Held(m) == Readable(aes, m.key, mac, m.consumed)
    && |m.buffer| <= CHANNEL_CAPACITY
  }

  function Held(m: Pump): seq<Notification> { if m.inHand.Some? then [m.inHand.value] else [] }

  /** What is known of a call from where it stands. */
  ghost predicate ThreadOk(aes: Aes, mac: Mac, h: seq<Event>, t: nat, p: Phase)
  {
    match p
    case SendSnapped(cmd, key, m, at) => ReadAt(h, t, at, Snapped(t, cmd), key) && m == mac
    case SendDrawn(cmd, key, m, at, sno, d) =>
      ReadAt(h, t, at, Snapped(t, cmd), key) && m == mac && at < d < |h| && h[d] == Drew(t, sno)
    case NotifyKeyed(key, m, at) => ReadAt(h, t, at, Subscribed(t), key) && m == mac
    case Pumping(m) => PumpOk(aes, mac, h, t, m)
    case PumpLeaving(m) => PumpOk(aes, mac, h, t, m) && (m.inHand.Some? ==> m.cancelled)
    case PumpReleased(m) => PumpOk(aes, mac, h, t, m) && (m.inHand.Some? ==> m.cancelled)
    case PumpClosed(m) => PumpOk(aes, mac, h, t, m) && (m.inHand.Some? ==> m.cancelled)
    case _ => true
  }

  /** The positions of the events a call has caused, while it may still cause more. */
  function OwnEvents(p: Phase): set<nat>
  {
    match p
    case SendSnapped(_, _, _, at) => {at}
    case SendDrawn(_, _, _, at, _, d) => {at, d}
    case NotifyKeyed(_, _, at) => {at}
    case _ => {}
  }

  predicate Finished(p: Phase)
  {
    p.SendReturned? || p.LoginReturned? || HasPump(p) || p.NotifyAborting? || p.NotifyRefused?
  }

  /** A call that may still cause events has caused only its own so far. */
  ghost predicate OwnsItsEvents(h: seq<Event>, t: nat, p: Phase)
  {
    !Finished(p) ==> forall i: nat | i < |h| && h[i].tid == t :: i in OwnEvents(p)
  }

  /** No call reads the session, draws, writes or commits twice. */
  ghost predicate OncePerCall(h: seq<Event>)
  {
    forall i, j | 0 <= i < j < |h| && h[i].tid == h[j].tid ::
      && !(h[i].Snapped? && h[j].Snapped?) && !(h[i].Drew? && h[j].Drew?)
      && !(h[i].Wrote? && h[j].Wrote?) && !(h[i].Committed? && h[j].Committed?)
  }

  /** The packet written at position w is the encryption of the command its call was given, under
      the key in force where that call read the session at position a, with the nonce of the serial
      number it drew at position d. */
  ghost predicate PacketFrom(aes: Aes, mac: Mac, h: seq<Event>, w: nat, a: nat, d: nat)
  {
    && a < d < w < |h| && h[w].Wrote? && h[a].Snapped? && h[d].Drew?
    && h[a].tid == h[d].tid == h[w].tid
    && LastLogin(h[..a]).Some?
    && var (key, sno) := (LastLogin(h[..a]).value.key, h[d].sno);
       h[w].packet == Encrypted(aes, key, CommandNonce(mac, sno), sno, Encoded(h[a].cmd))
  }

  ghost predicate PacketOk(aes: Aes, mac: Mac, h: seq<Event>, w: nat)
    requires w < |h|
  {
    h[w].Wrote? ==> exists a, d :: PacketFrom(aes, mac, h, w, a, d)
  }

  /** Between claiming the subscription and giving it back. */
  predicate Holds(p: Phase)
  {
    p.NotifyClaimed? || p.NotifyKeyed? || p.NotifyAborting? || p.Pumping? || p.PumpLeaving?
  }

  /** The flag is up exactly while some call holds the subscription, and no two ever do. */
  ghost predicate OneHolder(s: State)
  {
    && (s.notifyActive <==> exists t :: t in s.threads && Holds(s.threads[t]))
    && (forall t, u | t in s.threads && u in s.threads && Holds(s.threads[t]) && Holds(s.threads[u]) :: t == u)
  }

  ghost predicate Inv(aes: Aes, mac: Mac, s: State)
  {
    && SessionOk(mac, s.session, s.history)
    && EveryLoginNumbered(s.history)
    && (forall t | t in s.threads :: ThreadOk(aes, mac, s.history, t, s.threads[t]))
    && (forall t | t in s.threads :: OwnsItsEvents(s.history, t, s.threads[t]))
    && (forall i | 0 <= i < |s.history| :: s.history[i].tid in s.threads)
    && OncePerCall(s.history)
    && (forall w: nat | w < |s.history| :: PacketOk(aes, mac, s.history, w))
    && OneHolder(s)
  }

  // ----- each part is kept by every step -----

  lemma AppendReads(h: seq<Event>, e: seq<Event>, t: nat, at: nat, event: Event, key: Block)
    requires ReadAt(h, t, at, event, key)
    ensures ReadAt(h + e, t, at, event, key)
  {
    Prefixes(h, e, at);
  }

  /** A step of another call, or one that records nothing, leaves what is known of a call alone. */
  lemma ThreadFrame(aes: Aes, mac: Mac, h: seq<Event>, e: seq<Event>, t: nat, p: Phase)
    requires ThreadOk(aes, mac, h, t, p)
    ensures ThreadOk(aes, mac, h + e, t, p)
  {
    match p
    case SendSnapped(cmd, key, m, at) => AppendReads(h, e, t, at, Snapped(t, cmd), key);
    case SendDrawn(cmd, key, m, at, sno, d) => AppendReads(h, e, t, at, Snapped(t, cmd), key);
    case NotifyKeyed(key, m, at) => AppendReads(h, e, t, at, Subscribed(t), key);
    case Pumping(m) => AppendReads(h, e, t, m.subscribedAt, Subscribed(t), m.key);
    case PumpLeaving(m) => AppendReads(h, e, t, m.subscribedAt, Subscribed(t), m.key);
    case PumpReleased(m) => AppendReads(h, e, t, m.subscribedAt, Subscribed(t), m.key);
    case PumpClosed(m) => AppendReads(h, e, t, m.subscribedAt, Subscribed(t), m.key);
    case _ =>
  }

  lemma AppendOne(h: seq<Event>, e: Event)
    ensures LastLogin(h + [e]) == if e.Committed? then Some(e.login) else LastLogin(h)
    ensures DrawnSince(h + [e])
         == if e.Committed? then [] else if e.Drew? then DrawnSince(h) + [e.sno] else DrawnSince(h)
  {
    assert (h + [e])[..|h + [e]| - 1] == h;
  }

  lemma NumberedPrefixes(h: seq<Event>, e: seq<Event>)
    requires EveryLoginNumbered(h) && |e| <= 1 && Numbered(h + e)
    ensures EveryLoginNumbered(h + e)
  {
    forall n | 0 <= n <= |h + e|
      ensures Numbered((h + e)[..n])
    {
      if n <= |h| {
        Prefixes(h, e, n);
      } else {
        assert (h + e)[..n] == h + e;
      }
    }
  }

  /** The session changes only with a draw or a commit, and then as they do. */
  lemma SessionEffect(aes: Aes, s: State, a: Action)
    requires Enabled(s, a)
    ensures var e := EffectOf(aes, s, a);
            && |e.events| <= 1
            && (a.Draw? ==> e.events == [Drew(a.tid, Drawn(s.session).1)] && e.session == Drawn(s.session).0)
            && (a.Commit? ==> var p := s.threads[a.tid];
                  && e.events == [Event.Committed(a.tid, LoginKey(p.key, p.salt))]
                  && e.session == Sessions.Committed(s.session, p.key, p.salt))
            && (!a.Draw? && !a.Commit? ==>
                  e.session == s.session && (e.events != [] ==> !e.events[0].Drew? && !e.events[0].Committed?))
  {
  }

  /** A draw continues the numbering. */
  lemma DrawKept(mac: Mac, session: Session, h: seq<Event>, t: nat)
    requires SessionOk(mac, session, h) && Numbered(h) && session.loggedIn
    ensures var (next, sno) := Drawn(session);
            SessionOk(mac, next, h + [Drew(t, sno)]) && Numbered(h + [Drew(t, sno)])
  {
    AppendOne(h, Drew(t, Drawn(session).1));
    DrawNumbers(session, |DrawnSince(h)|);
  }

  /** A commit restarts it. */
  lemma CommitKept(mac: Mac, session: Session, h: seq<Event>, t: nat, key: Block, salt: Pair)
    requires SessionOk(mac, session, h)
    ensures var g := h + [Event.Committed(t, LoginKey(key, salt))];
            SessionOk(mac, Sessions.Committed(session, key, salt), g) && Numbered(g)
  {
    AppendOne(h, Event.Committed(t, LoginKey(key, salt)));
  }

  /** No other event touches it. */
  lemma OtherKept(mac: Mac, session: Session, h: seq<Event>, e: Event)
    requires SessionOk(mac, session, h) && Numbered(h) && !e.Drew? && !e.Committed?
    ensures SessionOk(mac, session, h + [e]) && Numbered(h + [e])
  {
    AppendOne(h, e);
  }

  /** What the session and the history may do together. */
  ghost predicate MovesWith(session: Session, next: Session, events: seq<Event>, t: nat)
  {
    || (events == [] && next == session)
    || (events == [Drew(t, Drawn(session).1)] && next == Drawn(session).0 && session.loggedIn)
    || (exists key: Block, salt: Pair ::
          next == Sessions.Committed(session, key, salt) && events == [Event.Committed(t, LoginKey(key, salt))])
    || (|events| == 1 && !events[0].Drew? && !events[0].Committed? && next == session)
  }

  lemma MoveKept(mac: Mac, session: Session, next: Session, h: seq<Event>, events: seq<Event>, t: nat)
    requires SessionOk(mac, session, h) && EveryLoginNumbered(h) && MovesWith(session, next, events, t)
    ensures SessionOk(mac, next, h + events) && EveryLoginNumbered(h + events)
  {
    assert h[..|h|] == h && Numbered(h[..|h|]);
    if events == [] {
      assert h + events == h;
    } else {
      assert events == [events[0]];
      if events[0].Drew? {
        DrawKept(mac, session, h, t);
      } else if events[0].Committed? {
        CommitKept(mac, session, h, t, events[0].login.key, events[0].login.salt);
      } else {
        OtherKept(mac, session, h, events[0]);
      }
      NumberedPrefixes(h, events);
    }
  }

  /** Draws keep the numbering, commits restart it, and nothing else touches it. */
  lemma SessionKept(aes: Aes, mac: Mac, s: State, a: Action)
    requires SessionOk(mac, s.session, s.history) && EveryLoginNumbered(s.history) && Enabled(s, a)
    requires a.Draw? ==> s.session.loggedIn
    ensures SessionOk(mac, Step(aes, s, a).session, Step(aes, s, a).history)
    ensures EveryLoginNumbered(Step(aes, s, a).history)
  {
    var e := EffectOf(aes, s, a);
    SessionEffect(aes, s, a);
    if a.Commit? {
      assert e.session == Sessions.Committed(s.session, s.threads[a.tid].key, s.threads[a.tid].salt);
    }
    MoveKept(mac, s.session, e.session, s.history, e.events, a.tid);
  }

  /** A call that is about to draw has read the session of a login. */
  lemma DrawsLoggedIn(aes: Aes, mac: Mac, s: State, a: Action)
    requires Inv(aes, mac, s) && Enabled(s, a) && a.Draw?
    ensures s.session.loggedIn
  {
    var p := s.threads[a.tid];
    assert ThreadOk(aes, mac, s.history, a.tid, p);
    LoginStays(s.history, p.at);
  }

  lemma ReadAppended(h: seq<Event>, t: nat, e: Event, key: Block)
    requires e.tid == t && LastLogin(h).Some? && key == LastLogin(h).value.key
    ensures ReadAt(h + [e], t, |h|, e, key)
  {
    assert (h + [e])[..|h|] == h;
  }

  lemma ReadableSnoc(aes: Aes, key: Block, mac: Mac, raws: seq<seq<byte>>, raw: seq<byte>)
    ensures Readable(aes, key, mac, raws + [raw])
         == Readable(aes, key, mac, raws)
            + match Opened(aes, key, mac, raw) case Success(n) => [n] case Failure(_) => []
  {
    assert (raws + [raw])[..|raws + [raw]| - 1] == raws;
  }

  /** The pump's own steps, those of its channels and those of its context. */
  lemma PumpTakes(aes: Aes, mac: Mac, h: seq<Event>, t: nat, m: Pump, raw: seq<byte>)
    requires PumpOk(aes, mac, h, t, m) && m.inHand.None?
    ensures PumpOk(aes, mac, h, t, PumpPhase(aes, Pumping(m), Take(t, raw)).pump)
  {
    ReadableSnoc(aes, m.key, mac, m.consumed, raw);
    assert m.delivered + m.buffer + [] == m.delivered + m.buffer;
  }

  lemma PumpPuts(aes: Aes, mac: Mac, h: seq<Event>, t: nat, m: Pump)
    requires PumpOk(aes, mac, h, t, m) && m.inHand.Some? && |m.buffer| < CHANNEL_CAPACITY
    ensures PumpOk(aes, mac, h, t, PumpPhase(aes, Pumping(m), Put(t)).pump)
  {
    var x := [m.inHand.value];
    assert m.delivered + (m.buffer + x) + [] == m.delivered + m.buffer + x;
  }

  lemma ConsumerReceives(aes: Aes, mac: Mac, h: seq<Event>, t: nat, p: Phase)
    requires HasPump(p) && PumpOk(aes, mac, h, t, p.pump) && p.pump.buffer != []
    ensures PumpOk(aes, mac, h, t, PumpPhase(aes, p, Receive(t)).pump)
  {
    var m := p.pump;
    assert m.buffer == [m.buffer[0]] + m.buffer[1..];
    assert (m.delivered + [m.buffer[0]]) + m.buffer[1..] == m.delivered + m.buffer;
  }

  lemma PumpKept(aes: Aes, mac: Mac, h: seq<Event>, t: nat, p: Phase, a: Action)
    requires ThreadOk(aes, mac, h, t, p) && EnabledIn(p, a) && PumpAction(a)
    ensures ThreadOk(aes, mac, h, t, PumpPhase(aes, p, a))
  {
    match a
    case Take(_, raw) => PumpTakes(aes, mac, h, t, p.pump, raw);
    case Put(_) => PumpPuts(aes, mac, h, t, p.pump);
    case Receive(_) => ConsumerReceives(aes, mac, h, t, p);
    case _ =>
  }

  /** What is known of the stepping call holds after its step. */
  lemma SendKept(aes: Aes, mac: Mac, s: State, p: Phase, a: Action)
    requires SessionOk(mac, s.session, s.history) && ThreadOk(aes, mac, s.history, a.tid, p)
    requires EnabledIn(p, a) && (a.Snap? || a.Draw? || a.Write?)
    ensures var e := SendStep(aes, s, p, a); ThreadOk(aes, mac, s.history + e.events, a.tid, e.phase)
  {
    var e := SendStep(aes, s, p, a);
    if a.Snap? && s.session.loggedIn {
      ReadAppended(s.history, a.tid, Snapped(a.tid, p.cmd), s.session.key);
    } else if a.Draw? {
      AppendReads(s.history, e.events, a.tid, p.at, Snapped(a.tid, p.cmd), p.key);
    }
  }

  lemma NotifyKept(aes: Aes, mac: Mac, s: State, p: Phase, a: Action)
    requires SessionOk(mac, s.session, s.history) && ThreadOk(aes, mac, s.history, a.tid, p)
    requires EnabledIn(p, a) && (a.Claim? || a.ReadSession? || a.Subscribe? || a.Abort?)
    ensures var e := NotifyStep(s, p, a); ThreadOk(aes, mac, s.history + e.events, a.tid, e.phase)
  {
    if a.ReadSession? && s.session.loggedIn {
      ReadAppended(s.history, a.tid, Subscribed(a.tid), s.session.key);
    } else if a.Subscribe? {
      assert s.history + [] == s.history;
      assert Readable(aes, p.key, mac, []) == [];
    }
  }

  lemma StepperKept(aes: Aes, mac: Mac, s: State, a: Action)
    requires SessionOk(mac, s.session, s.history) && Enabled(s, a)
    requires a.tid in s.threads ==> ThreadOk(aes, mac, s.history, a.tid, s.threads[a.tid])
    ensures ThreadOk(aes, mac, Step(aes, s, a).history, a.tid, EffectOf(aes, s, a).phase)
  {
    if a.CallSend? || a.CallLogin? || a.CallNotifications? {
    } else {
      var p := s.threads[a.tid];
      if a.Snap? || a.Draw? || a.Write? {
        SendKept(aes, mac, s, p, a);
      } else if a.WritePair? || a.ReadPair? || a.Commit? {
      } else if a.Claim? || a.ReadSession? || a.Subscribe? || a.Abort? {
        NotifyKept(aes, mac, s, p, a);
      } else {
        PumpKept(aes, mac, s.history, a.tid, p, a);
        assert s.history + [] == s.history;
      }
    }
  }

  lemma ThreadsKept(aes: Aes, mac: Mac, s: State, a: Action)
    requires Inv(aes, mac, s) && Enabled(s, a)
    ensures var s' := Step(aes, s, a);
            forall t | t in s'.threads :: ThreadOk(aes, mac, s'.history, t, s'.threads[t])
  {
    var s' := Step(aes, s, a);
    StepperKept(aes, mac, s, a);
    forall t | t in s'.threads
      ensures ThreadOk(aes, mac, s'.history, t, s'.threads[t])
    {
      if t != a.tid {
        ThreadFrame(aes, mac, s.history, EffectOf(aes, s, a).events, t, s.threads[t]);
      }
    }
  }

  /** A step records at most one event, of its own call, while that call was not finished. */
  lemma StepRecords(aes: Aes, s: State, a: Action)
    requires Enabled(s, a)
    ensures var e := EffectOf(aes, s, a);
            && |e.events| <= 1 && (forall x | x in e.events :: x.tid == a.tid)
            && (e.events != [] ==> a.tid in s.threads && !Finished(s.threads[a.tid]))
  {
  }

  lemma OwnEffect(aes: Aes, s: State, a: Action)
    requires Enabled(s, a)
    ensures var e := EffectOf(aes, s, a);
            var own := if a.tid in s.threads then OwnEvents(s.threads[a.tid]) else {};
            && (!Finished(e.phase) ==> OwnEvents(e.phase) == own + if e.events == [] then {} else {|s.history|})
            && (!Finished(e.phase) && a.tid in s.threads ==> !Finished(s.threads[a.tid]))
  {
  }

  lemma StepperOwns(h: seq<Event>, events: seq<Event>, t: nat, own: set<nat>, phase: Phase)
    requires |events| <= 1 && forall i: nat | i < |h| && h[i].tid == t :: i in own
    requires OwnEvents(phase) == own + if events == [] then {} else {|h|}
    ensures OwnsItsEvents(h + events, t, phase)
  {
  }

  lemma BystanderOwns(h: seq<Event>, events: seq<Event>, t: nat, phase: Phase)
    requires OwnsItsEvents(h, t, phase) && forall x | x in events :: x.tid != t
    ensures OwnsItsEvents(h + events, t, phase)
  {
    assert forall i | |h| <= i < |h + events| :: (h + events)[i] in events;
  }

  lemma OwnershipKept(aes: Aes, s: State, a: Action, t: nat)
    requires Enabled(s, a) && t in Step(aes, s, a).threads
    requires t in s.threads ==> OwnsItsEvents(s.history, t, s.threads[t])
    requires forall i | 0 <= i < |s.history| :: s.history[i].tid in s.threads
    ensures OwnsItsEvents(Step(aes, s, a).history, t, Step(aes, s, a).threads[t])
  {
    var e := EffectOf(aes, s, a);
    StepRecords(aes, s, a);
    if t != a.tid {
      BystanderOwns(s.history, e.events, t, s.threads[t]);
    } else if !Finished(e.phase) {
      OwnEffect(aes, s, a);
      StepperOwns(s.history, e.events, t, if t in s.threads then OwnEvents(s.threads[t]) else {}, e.phase);
    }
  }

  lemma OnceKept(aes: Aes, mac: Mac, s: State, a: Action)
    requires OncePerCall(s.history) && Enabled(s, a)
    requires a.tid in s.threads ==> ThreadOk(aes, mac, s.history, a.tid, s.threads[a.tid])
    requires a.tid in s.threads ==> OwnsItsEvents(s.history, a.tid, s.threads[a.tid])
    ensures OncePerCall(Step(aes, s, a).history)
  {
    var h, e := s.history, EffectOf(aes, s, a).events;
    StepRecords(aes, s, a);
    if e != [] {
      var p := s.threads[a.tid];
      var g: seq<Event> := h + e;
      forall i, j | 0 <= i < j < |g| && g[i].tid == g[j].tid
        ensures !(g[i].Snapped? && g[j].Snapped?) && !(g[i].Drew? && g[j].Drew?)
        ensures !(g[i].Wrote? && g[j].Wrote?) && !(g[i].Committed? && g[j].Committed?)
      {
        if j == |h| {
          assert i in OwnEvents(p);
        }
      }
    } else {
      assert h + e == h;
    }
  }

  lemma PacketFrame(aes: Aes, mac: Mac, h: seq<Event>, e: seq<Event>, w: nat, a: nat, d: nat)
    requires PacketFrom(aes, mac, h, w, a, d)
    ensures PacketFrom(aes, mac, h + e, w, a, d)
  {
    Prefixes(h, e, a);
  }

  lemma PacketsKept(aes: Aes, mac: Mac, s: State, a: Action, w: nat)
    requires Enabled(s, a) && w < |Step(aes, s, a).history|
    requires w < |s.history| ==> PacketOk(aes, mac, s.history, w)
    requires a.tid in s.threads ==> ThreadOk(aes, mac, s.history, a.tid, s.threads[a.tid])
    ensures PacketOk(aes, mac, Step(aes, s, a).history, w)
  {
    var h, e := s.history, EffectOf(aes, s, a).events;
    StepRecords(aes, s, a);
    var g := Step(aes, s, a).history;
    if g[w].Wrote? {
      if w < |h| {
        assert PacketOk(aes, mac, h, w);
        var x, d :| PacketFrom(aes, mac, h, w, x, d);
        PacketFrame(aes, mac, h, e, w, x, d);
      } else {
        var p := s.threads[a.tid];
        Prefixes(h, e, p.at);
        assert PacketFrom(aes, mac, h + e, w, p.at, p.drawnAt);
      }
    }
  }

  lemma HolderEffect(aes: Aes, s: State, a: Action)
    requires Enabled(s, a)
    ensures var e := EffectOf(aes, s, a);
            var before := a.tid in s.threads && Holds(s.threads[a.tid]);
            && (before && !Holds(e.phase) ==> !e.notifyActive)
            && (!before && Holds(e.phase) ==> !s.notifyActive && e.notifyActive)
            && (before == Holds(e.phase) ==> e.notifyActive == s.notifyActive)
  {
  }

  /** Claiming is the only way to become the holder, and only a holder gives the flag back. */
  lemma HolderKept(aes: Aes, s: State, a: Action)
    requires OneHolder(s) && Enabled(s, a)
    ensures OneHolder(Step(aes, s, a))
  {
    var s' := Step(aes, s, a);
    HolderEffect(aes, s, a);
    if Holds(s'.threads[a.tid]) {
      assert a.tid in s'.threads;
    } else if s'.notifyActive {
      var t :| t in s.threads && Holds(s.threads[t]);
      assert t in s'.threads && Holds(s'.threads[t]);
    }
  }

  lemma EventsKept(aes: Aes, s: State, a: Action)
    requires Enabled(s, a)
    requires forall t | t in s.threads :: OwnsItsEvents(s.history, t, s.threads[t])
    requires forall i | 0 <= i < |s.history| :: s.history[i].tid in s.threads
    ensures var s' := Step(aes, s, a);
            && (forall t | t in s'.threads :: OwnsItsEvents(s'.history, t, s'.threads[t]))
            && (forall i | 0 <= i < |s'.history| :: s'.history[i].tid in s'.threads)
  {
    var s' := Step(aes, s, a);
    forall t | t in s'.threads
      ensures OwnsItsEvents(s'.history, t, s'.threads[t])
    {
      OwnershipKept(aes, s, a, t);
    }
    StepRecords(aes, s, a);
  }

  lemma InvKept(aes: Aes, mac: Mac, s: State, a: Action)
    requires Inv(aes, mac, s) && Enabled(s, a)
    ensures Inv(aes, mac, Step(aes, s, a))
  {
    var s' := Step(aes, s, a);
    if a.Draw? {
      DrawsLoggedIn(aes, mac, s, a);
    }
    SessionKept(aes, mac, s, a);
    ThreadsKept(aes, mac, s, a);
    EventsKept(aes, s, a);
    OnceKept(aes, mac, s, a);
    forall w: nat | w < |s'.history|
      ensures PacketOk(aes, mac, s'.history, w)
    {
      PacketsKept(aes, mac, s, a, w);
    }
    HolderKept(aes, s, a);
  }

  /** A run that can be taken is a shorter one and a step. */
  lemma RunSplit(aes: Aes, mac: Mac, acts: seq<Action>)
    requires Run(aes, mac, acts).Some? && acts != []
    ensures var (before, a) := (Run(aes, mac, acts[..|acts| - 1]), acts[|acts| - 1]);
            before.Some? && Enabled(before.value, a) && Run(aes, mac, acts) == Some(Step(aes, before.value, a))
  {
  }

  lemma {:induction false} RunKeeps(aes: Aes, mac: Mac, acts: seq<Action>)
    requires Run(aes, mac, acts).Some?
    ensures Inv(aes, mac, Run(aes, mac, acts).value)
  {
    if acts == [] {
      var none: seq<Event> := [];
      assert none[..0] == none;
    } else {
      RunSplit(aes, mac, acts);
      RunKeeps(aes, mac, acts[..|acts| - 1]);
      InvKept(aes, mac, Run(aes, mac, acts[..|acts| - 1]).value, acts[|acts| - 1]);
    }
  }
}
