/** The session record of session.go and the client object of client.go.

  Each method below is one critical section of the original, or a sequence of them run by a single
  caller; what it does to the session is stated by the functions on session values, which the
  interleaved runs use as their atomic steps.
 */
module Sessions {
  import opened Bytes
  import opened Results
  import opened PacketCipher
  import LoginHandshake
  import opened Commands

  datatype Session = Session(key: Block, salt: Pair, counter: byte, mac: Mac, loggedIn: bool)

  function NewSession(mac: Mac): Session
  {
    Session(Zeros(16), Zeros(2), 0, mac, false)
  }

  /** The commit of a login. */
  function Committed(s: Session, key: Block, salt: Pair): Session
  {
    Session(key, salt, 0, s.mac, true)
  }

  /** The serial number numbered k in a login with the given salt. */
  function NumberedSno(k: nat, salt: Pair): Sno
  {
    [ByteOf(k), salt[0], salt[1]]
  }

  lemma NumberedIs(k: nat, salt: Pair)
    ensures var sno := NumberedSno(k, salt); sno[0] as int == k % 256 && sno[1..] == salt
  {
    ByteOfValue(k);
  }

  /** Drawing a serial number. */
  function Drawn(s: Session): (Session, Sno)
  {
    (s.(counter := s.counter + 1), [s.counter, s.salt[0], s.salt[1]])
  }

  /** The first draw after a commit is numbered 0, and each draw is followed by the next number. */
  lemma DrawNumbers(s: Session, k: nat)
    requires s.counter == ByteOf(k)
    ensures Drawn(s).1 == NumberedSno(k, s.salt) && Drawn(s).0.counter == ByteOf(k + 1)
  {
  }

  /** Command nonces of one login repeat exactly every 256 draws. */
  lemma NonceRepeats(mac: Mac, salt: Pair, j: nat, k: nat)
    ensures CommandNonce(mac, NumberedSno(j, salt)) == CommandNonce(mac, NumberedSno(k, salt))
       <==> j % 256 == k % 256
  {
    CommandNonceInjective(mac, NumberedSno(j, salt), NumberedSno(k, salt));
    ByteOfEqual(j, k);
    assert NumberedSno(j, salt)[0] == ByteOf(j) && NumberedSno(k, salt)[0] == ByteOf(k);
  }

  class SessionRecord {
    var key: Block
    var salt: Pair
    var counter: byte
    const gwMAC: Mac
    var loggedIn: bool

    function State(): Session
      reads this
    {
      Session(key, salt, counter, gwMAC, loggedIn)
    }

    constructor (mac: Mac)
      ensures State() == NewSession(mac)
    {
      key, salt, counter, gwMAC, loggedIn := Zeros(16), Zeros(2), 0, mac, false;
    }

    method NextSNO() returns (sno: Sno)
      modifies this
      ensures (State(), sno) == Drawn(old(State()))
    {
      sno := [counter, salt[0], salt[1]];
      counter := counter + 1;
    }
  }

  /** What Send leaves behind when nothing else touches the session: the packet, and one draw. */
  function Sent(aes: Aes, s: Session, cmd: Command): (Session, Result<seq<byte>>)
    requires cmd.Encodable()
  {
    if !s.loggedIn then (s, Failure(NotLoggedIn))
    else
      var (s', sno) := Drawn(s);
      (s', Success(Encrypted(aes, s.key, CommandNonce(s.mac, sno), sno, Encoded(cmd))))
  }

  /** What Login leaves behind: on any failure of the transport or of the response, nothing. */
  function LoggedIn(aes: Aes, s: Session, name: seq<byte>, password: seq<byte>, randA: Half, salt: Pair,
                    written: bool, response: Option<seq<byte>>): (Session, Result<()>)
  {
    if !written then (s, Failure(WriteFailed))
    else if response.None? then (s, Failure(ReadFailed))
    else match LoginHandshake.LoginResponse(response.value)
      case Failure(e) => (s, Failure(e))
      case Success(randB) =>
        (Committed(s, LoginHandshake.SessionKey(aes, name, password, randA, randB), salt), Success(()))
  }

  /** What Notifications leaves behind up to the start of its pump: the subscription flag, and the key
      and address for the pump or the error. */
  function Subscribing(s: Session, active: bool, subscribed: bool): (bool, Result<(Block, Mac)>)
  {
    if active then (true, Failure(AlreadySubscribed))
    else if !s.loggedIn then (false, Failure(NotLoggedIn))
    else if !subscribed then (false, Failure(SubscribeFailed))
    else (true, Success((s.key, s.mac)))
  }

  /** After a login with a node, a command sent is opened by that node, whatever went before. */
  lemma LoginThenSend(aes: Aes, s: Session, name: seq<byte>, password: seq<byte>, randA: Half, randB: Half,
                      salt: Pair, tail: Half, cmd: Command)
    requires cmd.Encodable()
    ensures var request := LoginHandshake.LoginRequest(aes, name, password, randA);
            var answer := LoginHandshake.NodeAnswers(aes, name, password, randB, tail, request);
            && answer.Some?
            && var (s', ok) := LoggedIn(aes, s, name, password, randA, salt, true, Some(answer.value.0));
            && ok == Success(())
            && var (_, packet) := Sent(aes, s', cmd);
            && packet.Success?
            && PeerOpens(aes, answer.value.1, s.mac, packet.value) == Success(Encoded(cmd))
  {
    LoginHandshake.HandshakeAgrees(aes, name, password, randA, randB, tail);
    var sk := LoginHandshake.SessionKey(aes, name, password, randA, randB);
    PeerRecovers(aes, sk, s.mac, Drawn(Committed(s, sk, salt)).1, Encoded(cmd));
  }

  /** The heartbeat of a client: not started yet, running, cancelled but not gone, or gone. */
  datatype Heartbeat = Unstarted | Running | Stopping | Stopped

  class Client {
    const session: SessionRecord
    var heartbeat: Heartbeat
    var notifyActive: bool

    constructor (mac: Mac)
      ensures fresh(session) && session.State() == NewSession(mac)
      ensures heartbeat == Unstarted && !notifyActive
    {
      session := new SessionRecord(mac);
      heartbeat := Unstarted;
      notifyActive := false;
    }

    /** The locked section that stores a new key. */
    method CommitLogin(key: Block, salt: Pair)
      modifies session
      ensures session.State() == Committed(old(session.State()), key, salt)
    {
      session.key := key;
      session.salt := salt;
      session.counter := 0;
      session.loggedIn := true;
    }

    /** The locked section in which Send and Notifications read the key. */
    method Snapshot() returns (r: Result<(Block, Mac)>)
      ensures r == if session.loggedIn then Success((session.key, session.gwMAC)) else Failure(NotLoggedIn)
    {
      if !session.loggedIn {
        return Failure(NotLoggedIn);
      }
      return Success((session.key, session.gwMAC));
    }

    method StartHeartbeat()
      modifies this`heartbeat
      ensures heartbeat == if old(heartbeat) == Unstarted then Running else old(heartbeat)
    {
      if heartbeat == Unstarted {
        heartbeat := Running;
      }
    }

    method Login(aes: Aes, name: seq<byte>, password: seq<byte>, randA: Half, salt: Pair,
                 written: bool, response: Option<seq<byte>>)
      returns (request: LoginHandshake.Request, r: Result<()>)
      modifies session, this`heartbeat
      ensures request == LoginHandshake.LoginRequest(aes, name, password, randA)
      ensures (session.State(), r)
           == LoggedIn(aes, old(session.State()), name, password, randA, salt, written, response)
      ensures r.Failure? ==> session.State() == old(session.State())
      ensures !written ==> r == Failure(WriteFailed)
      ensures written && response.None? ==> r == Failure(ReadFailed)
      ensures heartbeat == if r.Success? && old(heartbeat) == Unstarted then Running else old(heartbeat)
    {
      request := LoginHandshake.BuildLoginRequest(aes, name, password, randA);
      if !written {
        return request, Failure(WriteFailed);
      }
      if response.None? {
        return request, Failure(ReadFailed);
      }
      var randB := LoginHandshake.ParseLoginResponse(response.value);
      if randB.Failure? {
        return request, Failure(randB.error);
      }
      var sk := LoginHandshake.DeriveSessionKey(aes, name, password, randA, randB.value);
      CommitLogin(sk, salt);
      StartHeartbeat();
      return request, Success(());
    }

    method Send(aes: Aes, cmd: Command) returns (r: Result<seq<byte>>)
      requires cmd.Encodable()
      modifies session
      ensures (session.State(), r) == Sent(aes, old(session.State()), cmd)
    {
      var snap := Snapshot();
      if snap.Failure? {
        return Failure(snap.error);
      }
      var (sk, gwMAC) := snap.value;
      var sno := session.NextSNO();
      var nonce := CommandNonce(gwMAC, sno);
      var plaintext := Encode(cmd);
      var packet := Encrypt(aes, sk, nonce, sno, plaintext);
      return Success(packet);
    }

    /** The locked section that claims the one subscription. */
    method ClaimNotify() returns (claimed: bool)
      modifies this`notifyActive
      ensures claimed == !old(notifyActive) && notifyActive
    {
      if notifyActive {
        return false;
      }
      notifyActive := true;
      return true;
    }

    method ReleaseNotify()
      modifies this`notifyActive
      ensures !notifyActive
    {
      notifyActive := false;
    }

    /** Notifications up to the start of the pump: on success it holds the subscription and returns
        the key the pump will use; on any failure of its own it gives the subscription back. */
    method Notifications(subscribed: bool) returns (r: Result<(Block, Mac)>)
      modifies this`notifyActive
      ensures (notifyActive, r) == Subscribing(session.State(), old(notifyActive), subscribed)
      ensures old(notifyActive) ==> r == Failure(AlreadySubscribed) && notifyActive
      ensures !old(notifyActive) ==> notifyActive == r.Success?
      ensures !old(notifyActive) ==> r == if !session.loggedIn then Failure(NotLoggedIn)
                                          else if !subscribed then Failure(SubscribeFailed)
                                          else Success((session.key, session.gwMAC))
    {
      var claimed := ClaimNotify();
      if !claimed {
        return Failure(AlreadySubscribed);
      }
      r := Snapshot();
      if r.Failure? {
        ReleaseNotify();
        return;
      }
      if !subscribed {
        ReleaseNotify();
        return Failure(SubscribeFailed);
      }
    }

    /** Close cancels a started loop and waits until it is gone; before that it does nothing. */
    method Close()
      modifies this`heartbeat
      ensures heartbeat == if old(heartbeat) == Unstarted then Unstarted else Stopped
    {
      if heartbeat != Unstarted {
        if heartbeat == Running {
          heartbeat := Stopping;
        }
        heartbeat := Stopped;
      }
    }
  }
}
