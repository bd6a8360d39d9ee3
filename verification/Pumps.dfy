/** What the notification pump does with what happens to it, and that no call of a client gets stuck. */
module Pumps {
  import opened Bytes
  import opened Results
  import opened PacketCipher
  import LoginHandshake
  import opened Notifications
  import opened Sessions
  import opened ClientRuns
  import opened ClientTheorems

  // ----- the pump against the actions of the run -----

  /** The packets call t took in a run, in order. */
  function TakenBy(acts: seq<Action>, t: nat): seq<seq<byte>>
  {
    if acts == [] then []
    else
      var (earlier, a) := (TakenBy(acts[..|acts| - 1], t), acts[|acts| - 1]);
      if a.Take? && a.tid == t then earlier + [a.raw] else earlier
  }

  /** How often a consumer read from the channel of call t. */
  function ReceivedBy(acts: seq<Action>, t: nat): nat
  {
    if acts == [] then 0
    else ReceivedBy(acts[..|acts| - 1], t) + if acts[|acts| - 1] == Receive(t) then 1 else 0
  }

  /** A pump has taken, delivered and ended as the run says, and for no other reason. */
  ghost predicate Followed(acts: seq<Action>, t: nat, p: Phase)
    requires HasPump(p)
  {
    && p.pump.consumed == TakenBy(acts, t)
    && |p.pump.delivered| == ReceivedBy(acts, t)
    && (p.pump.cancelled <==> Cancel(t) in acts)
    && (SeeCancel(t) in acts ==> Cancel(t) in acts)
    && (p.Pumping? <==> SeeCancel(t) !in acts && SeeEnd(t) !in acts)
    && (p.PumpReleased? || p.PumpClosed? <==> Release(t) in acts)
    && (p.PumpClosed? <==> CloseOut(t) in acts)
  }

  ghost predicate NotPumped(acts: seq<Action>, t: nat)
  {
    && TakenBy(acts, t) == [] && ReceivedBy(acts, t) == 0
    && Cancel(t) !in acts && SeeCancel(t) !in acts && SeeEnd(t) !in acts
    && Release(t) !in acts && CloseOut(t) !in acts
  }

  ghost predicate Traced(acts: seq<Action>, t: nat, s: State)
  {
    if t in s.threads && HasPump(s.threads[t]) then Followed(acts, t, s.threads[t]) else NotPumped(acts, t)
  }

  lemma TraceSnoc(acts: seq<Action>, a: Action, t: nat)
    ensures TakenBy(acts + [a], t) == TakenBy(acts, t) + if a.Take? && a.tid == t then [a.raw] else []
    ensures ReceivedBy(acts + [a], t) == ReceivedBy(acts, t) + if a == Receive(t) then 1 else 0
  {
    assert (acts + [a])[..|acts + [a]| - 1] == acts;
  }

  lemma PumpStepTraced(aes: Aes, acts: seq<Action>, t: nat, p: Phase, a: Action)
    requires HasPump(p) && Followed(acts, t, p) && a.tid == t && EnabledIn(p, a) && PumpAction(a)
    ensures HasPump(PumpPhase(aes, p, a)) && Followed(acts + [a], t, PumpPhase(aes, p, a))
  {
    TraceSnoc(acts, a, t);
  }

  lemma StillNotPumped(acts: seq<Action>, a: Action, t: nat)
    requires NotPumped(acts, t) && !PumpAction(a)
    ensures NotPumped(acts + [a], t)
  {
    TraceSnoc(acts, a, t);
  }

  /** A pump begins with nothing taken, and only a subscription begins one. */
  lemma PumpBegins(aes: Aes, s: State, a: Action)
    requires Enabled(s, a) && !PumpAction(a)
    ensures var p := EffectOf(aes, s, a).phase;
            HasPump(p) ==> p.Pumping? && p.pump.consumed == [] && p.pump.delivered == [] && !p.pump.cancelled
  {
  }

  lemma OtherStepTraced(aes: Aes, acts: seq<Action>, t: nat, s: State, a: Action)
    requires Enabled(s, a) && a.tid == t && !PumpAction(a) && NotPumped(acts, t)
    ensures Traced(acts + [a], t, Step(aes, s, a))
  {
    StillNotPumped(acts, a, t);
    PumpBegins(aes, s, a);
  }

  /** Only the pump's own actions have to do with a pump. */
  lemma PumpActionsOnly(s: State, a: Action)
    requires Enabled(s, a)
    ensures PumpAction(a) <==> a.tid in s.threads && HasPump(s.threads[a.tid])
  {
  }

  lemma BystanderTraced(aes: Aes, acts: seq<Action>, t: nat, s: State, a: Action)
    requires Enabled(s, a) && a.tid != t && Traced(acts, t, s)
    ensures Traced(acts + [a], t, Step(aes, s, a))
  {
    TraceSnoc(acts, a, t);
    var s' := Step(aes, s, a);
    assert t in s'.threads <==> t in s.threads;
  }

  lemma {:induction false} RunTraced(aes: Aes, mac: Mac, acts: seq<Action>, t: nat)
    requires Run(aes, mac, acts).Some?
    ensures Traced(acts, t, Run(aes, mac, acts).value)
  {
    if acts != [] {
      RunSplit(aes, mac, acts);
      var (before, a) := (acts[..|acts| - 1], acts[|acts| - 1]);
      var s := Run(aes, mac, before).value;
      RunTraced(aes, mac, before, t);
      assert acts == before + [a];
      if a.tid != t {
        BystanderTraced(aes, before, t, s, a);
      } else {
        PumpActionsOnly(s, a);
        if PumpAction(a) {
          PumpStepTraced(aes, before, t, s.threads[t], a);
        } else {
          OtherStepTraced(aes, before, t, s, a);
        }
      }
    }
  }

  /** In every run, a pump delivers what is readable of exactly the packets the run gave it; the
      consumer has as many notifications as it read; and the pump has ended exactly when it saw its
      context cancelled or its source end: no packet ends it. */
  lemma PumpTrace(aes: Aes, mac: Mac, acts: seq<Action>, s: State, t: nat)
    requires Run(aes, mac, acts) == Some(s) && t in s.threads && HasPump(s.threads[t])
    ensures var p := s.threads[t];
            && Delivers(p, Readable(aes, p.pump.key, mac, TakenBy(acts, t)))
            && |p.pump.delivered| == ReceivedBy(acts, t)
            && (p.Pumping? <==> SeeCancel(t) !in acts && SeeEnd(t) !in acts)
            && (SeeCancel(t) in acts ==> Cancel(t) in acts)
            && (Release(t) in acts <==> p.PumpReleased? || p.PumpClosed?)
            && (CloseOut(t) in acts <==> p.PumpClosed?)
  {
    RunTraced(aes, mac, acts, t);
    PumpRefines(aes, mac, acts, s, t);
  }

  // ----- any packets can come -----

  /** What can be read of one packet. */
  function One(aes: Aes, key: Block, mac: Mac, raw: seq<byte>): seq<Notification>
  {
    match Opened(aes, key, mac, raw) case Success(n) => [n] case Failure(_) => []
  }

  lemma ReadableLast(aes: Aes, key: Block, mac: Mac, raws: seq<seq<byte>>)
    requires raws != []
    ensures Readable(aes, key, mac, raws)
         == Readable(aes, key, mac, raws[..|raws| - 1]) + One(aes, key, mac, raws[|raws| - 1])
  {
  }

  function WithPumping(s: State, t: nat, m: Pump): State
  {
    s.(threads := s.threads[t := Pumping(m)])
  }

  lemma TakeSteps(aes: Aes, s: State, t: nat, raw: seq<byte>)
    requires t in s.threads && s.threads[t].Pumping? && s.threads[t].pump.inHand.None?
    ensures Enabled(s, Take(t, raw))
    ensures var m := s.threads[t].pump;
            var one := One(aes, m.key, m.mac, raw);
            var hand := if one == [] then None else Some(one[0]);
            Step(aes, s, Take(t, raw)) == WithPumping(s, t, m.(consumed := m.consumed + [raw], inHand := hand))
  {
  }

  lemma PutSteps(aes: Aes, s: State, t: nat)
    requires t in s.threads && s.threads[t].Pumping? && s.threads[t].pump.inHand.Some?
    requires |s.threads[t].pump.buffer| < 64
    ensures Enabled(s, Put(t))
    ensures var m := s.threads[t].pump;
            Step(aes, s, Put(t)) == WithPumping(s, t, m.(inHand := None, buffer := m.buffer + [m.inHand.value]))
  {
  }

  /** A pump that some packets have gone through. */
  function Fed(aes: Aes, m: Pump, raws: seq<seq<byte>>): Pump
  {
    m.(consumed := m.consumed + raws, buffer := m.buffer + Readable(aes, m.key, m.mac, raws))
  }

  /** A pump whose consumer has read all there was. */
  function Drained(m: Pump): Pump
  {
    m.(buffer := [], delivered := m.delivered + m.buffer)
  }

  function Received(m: Pump): Pump
    requires m.buffer != []
  {
    m.(buffer := m.buffer[1..], delivered := m.delivered + [m.buffer[0]])
  }

  lemma FedNone(aes: Aes, m: Pump)
    ensures Fed(aes, m, []) == m
  {
    assert m.consumed + [] == m.consumed && m.buffer + [] == m.buffer;
  }

  lemma FedOne(aes: Aes, m: Pump, raw: seq<byte>)
    ensures Fed(aes, m, [raw]) == m.(consumed := m.consumed + [raw], buffer := m.buffer + One(aes, m.key, m.mac, raw))
  {
    ReadableLast(aes, m.key, m.mac, [raw]);
    assert [] + One(aes, m.key, m.mac, raw) == One(aes, m.key, m.mac, raw);
  }

  lemma FedMore(aes: Aes, m: Pump, raws: seq<seq<byte>>)
    requires raws != []
    ensures Fed(aes, Fed(aes, m, raws[..|raws| - 1]), [raws[|raws| - 1]]) == Fed(aes, m, raws)
  {
    var (before, raw) := (raws[..|raws| - 1], raws[|raws| - 1]);
    FedOne(aes, Fed(aes, m, before), raw);
    ReadableLast(aes, m.key, m.mac, raws);
    assert m.consumed + before + [raw] == m.consumed + raws;
    Associates(m.buffer, Readable(aes, m.key, m.mac, before), One(aes, m.key, m.mac, raw));
  }

  lemma Associates<T>(a: seq<T>, b: seq<T>, c: seq<T>)
    ensures a + b + c == a + (b + c)
  {
  }

  lemma DrainedNone(m: Pump)
    requires m.buffer == []
    ensures Drained(m) == m
  {
    assert m.delivered + [] == m.delivered;
  }

  lemma DrainedMore(m: Pump)
    requires m.buffer != []
    ensures Drained(Received(m)) == Drained(m)
  {
    assert m.delivered + [m.buffer[0]] + m.buffer[1..] == m.delivered + m.buffer;
  }

  lemma ServedMore(aes: Aes, m: Pump, raws: seq<seq<byte>>)
    requires raws != []
    ensures var served := Drained(Fed(aes, m, raws[..|raws| - 1]));
            Drained(Fed(aes, served, [raws[|raws| - 1]])) == Drained(Fed(aes, m, raws))
  {
    var (before, raw) := (raws[..|raws| - 1], raws[|raws| - 1]);
    var mid := Fed(aes, m, before);
    FedOne(aes, mid, raw);
    FedOne(aes, Drained(mid), raw);
    FedMore(aes, m, raws);
    var one := One(aes, m.key, m.mac, raw);
    Associates(m.delivered, mid.buffer, one);
    assert [] + one == one;
  }

  lemma ReceiveSteps(aes: Aes, s: State, t: nat)
    requires t in s.threads && HasPump(s.threads[t]) && s.threads[t].pump.buffer != []
    ensures Enabled(s, Receive(t))
    ensures var p := s.threads[t];
            Step(aes, s, Receive(t)) == s.(threads := s.threads[t := WithPump(p, Received(p.pump))])
  {
  }

  /** One packet, readable or not, goes through the pump, which is then ready for the next. */
  lemma FeedOne(aes: Aes, mac: Mac, acts: seq<Action>, s: State, t: nat, raw: seq<byte>)
    returns (acts': seq<Action>, s': State)
    requires Run(aes, mac, acts) == Some(s) && t in s.threads && s.threads[t].Pumping?
    requires s.threads[t].pump.inHand.None? && |Fed(aes, s.threads[t].pump, [raw]).buffer| <= 64
    ensures Run(aes, mac, acts') == Some(s') && s' == WithPumping(s, t, Fed(aes, s.threads[t].pump, [raw]))
  {
    var m := s.threads[t].pump;
    var one := One(aes, m.key, m.mac, raw);
    FedOne(aes, m, raw);
    TakeSteps(aes, s, t, raw);
    acts', s' := Take1(aes, mac, acts, s, Take(t, raw));
    if one != [] {
      assert one == [one[0]];
      PutSteps(aes, s', t);
      acts', s' := Take1(aes, mac, acts', s', Put(t));
    } else {
      assert m.buffer + one == m.buffer;
    }
  }

  /** As long as the channel has room for the readable ones, the pump takes any packets without a
      consumer; it has room for 64. */
  lemma {:induction false} Feed(aes: Aes, mac: Mac, acts: seq<Action>, s: State, t: nat, raws: seq<seq<byte>>)
    returns (acts': seq<Action>, s': State)
    requires Run(aes, mac, acts) == Some(s) && t in s.threads && s.threads[t].Pumping?
    requires s.threads[t].pump.inHand.None? && |Fed(aes, s.threads[t].pump, raws).buffer| <= 64
    ensures Run(aes, mac, acts') == Some(s') && s' == WithPumping(s, t, Fed(aes, s.threads[t].pump, raws))
    decreases |raws|
  {
    var m := s.threads[t].pump;
    if raws == [] {
      FedNone(aes, m);
      acts', s' := acts, s;
    } else {
      FedMore(aes, m, raws);
      FedGrows(aes, m, raws);
      acts', s' := Feed(aes, mac, acts, s, t, raws[..|raws| - 1]);
      acts', s' := FeedOne(aes, mac, acts', s', t, raws[|raws| - 1]);
    }
  }

  lemma FedGrows(aes: Aes, m: Pump, raws: seq<seq<byte>>)
    requires raws != []
    ensures |Fed(aes, m, raws[..|raws| - 1]).buffer| <= |Fed(aes, m, raws).buffer|
  {
    ReadableLast(aes, m.key, m.mac, raws);
  }

  /** A consumer can always read all that is buffered, also after the pump has ended. */
  lemma {:induction false} Drain(aes: Aes, mac: Mac, acts: seq<Action>, s: State, t: nat)
    returns (acts': seq<Action>, s': State)
    requires Run(aes, mac, acts) == Some(s) && t in s.threads && HasPump(s.threads[t])
    ensures Run(aes, mac, acts') == Some(s')
    ensures s' == s.(threads := s.threads[t := WithPump(s.threads[t], Drained(s.threads[t].pump))])
    decreases |s.threads[t].pump.buffer|
  {
    var p := s.threads[t];
    if p.pump.buffer == [] {
      DrainedNone(p.pump);
      acts', s' := acts, s;
    } else {
      DrainedMore(p.pump);
      ReceiveSteps(aes, s, t);
      acts', s' := Take1(aes, mac, acts, s, Receive(t));
      acts', s' := Drain(aes, mac, acts', s', t);
    }
  }

  /** Whatever packets come, however many and whether they can be read or not, there is a run in which
      the pump takes them all, is still at work, and every readable one has reached the consumer. */
  lemma {:induction false} Serve(aes: Aes, mac: Mac, acts: seq<Action>, s: State, t: nat, raws: seq<seq<byte>>)
    returns (acts': seq<Action>, s': State)
    requires Run(aes, mac, acts) == Some(s) && t in s.threads
    requires s.threads[t].Pumping? && s.threads[t].pump.inHand.None?
    ensures Run(aes, mac, acts') == Some(s')
    ensures s' == WithPumping(s, t, Drained(Fed(aes, s.threads[t].pump, raws)))
    decreases |raws|
  {
    var m := s.threads[t].pump;
    if raws == [] {
      FedNone(aes, m);
      acts', s' := Drain(aes, mac, acts, s, t);
    } else {
      var (before, raw) := (raws[..|raws| - 1], raws[|raws| - 1]);
      ServedMore(aes, m, raws);
      acts', s' := Serve(aes, mac, acts, s, t, before);
      FedOne(aes, s'.threads[t].pump, raw);
      acts', s' := FeedOne(aes, mac, acts', s', t, raw);
      acts', s' := Drain(aes, mac, acts', s', t);
    }
  }

  // ----- no call gets stuck -----

  predicate Ended(p: Phase)
  {
    || p.SendReturned? || p.SendRefused? || p.LoginReturned? || p.LoginRefused?
    || p.NotifyBusy? || p.NotifyRefused? || p.PumpClosed?
  }

  /** A next step of a call on its way to its end. */
  function NextOf(p: Phase, t: nat, response: Option<seq<byte>>, ok: bool): Action
    requires !Ended(p)
  {
    match p
    case SendCalled(_) => Snap(t)
    case SendSnapped(_, _, _, _) => Draw(t)
    case SendDrawn(_, _, _, _, _, _) => Write(t)
    case LoginCalled(_, _, _, _) => WritePair(t, ok)
    case LoginWritten(_, _, _, _) => ReadPair(t, response)
    case LoginKeyed(_, _) => Commit(t)
    case NotifyCalled => Claim(t)
    case NotifyClaimed => ReadSession(t)
    case NotifyKeyed(_, _, _) => Subscribe(t, ok)
    case NotifyAborting(_) => Abort(t)
    case Pumping(m) => if m.inHand.None? then SeeEnd(t) else if m.cancelled then SeeCancel(t) else Cancel(t)
    case PumpLeaving(_) => Release(t)
    case PumpReleased(_) => CloseOut(t)
  }

  /** How many such steps are left at most. */
  function StepsLeft(p: Phase): nat
  {
    match p
    case SendCalled(_) => 3
    case SendSnapped(_, _, _, _) => 2
    case SendDrawn(_, _, _, _, _, _) => 1
    case LoginCalled(_, _, _, _) => 3
    case LoginWritten(_, _, _, _) => 2
    case LoginKeyed(_, _) => 1
    case NotifyCalled => 7
    case NotifyClaimed => 6
    case NotifyKeyed(_, _, _) => 5
    case NotifyAborting(_) => 1
    case Pumping(m) => if m.inHand.None? || m.cancelled then 3 else 4
    case PumpLeaving(_) => 2
    case PumpReleased(_) => 1
    case _ => 0
  }

  lemma NextStepOfPump(aes: Aes, s: State, t: nat, response: Option<seq<byte>>, ok: bool)
    requires t in s.threads && !Ended(s.threads[t]) && HasPump(s.threads[t])
    ensures var a := NextOf(s.threads[t], t, response, ok);
            && Enabled(s, a) && a.tid == t
            && StepsLeft(EffectOf(aes, s, a).phase) < StepsLeft(s.threads[t])
  {
  }

  lemma NextStepOfCall(aes: Aes, s: State, t: nat, response: Option<seq<byte>>, ok: bool)
    requires t in s.threads && !Ended(s.threads[t]) && !HasPump(s.threads[t])
    ensures var a := NextOf(s.threads[t], t, response, ok);
            && Enabled(s, a) && a.tid == t
            && StepsLeft(EffectOf(aes, s, a).phase) < StepsLeft(s.threads[t])
  {
  }

  lemma NextStep(aes: Aes, s: State, t: nat, response: Option<seq<byte>>, ok: bool)
    requires t in s.threads && !Ended(s.threads[t])
    ensures var a := NextOf(s.threads[t], t, response, ok);
            && Enabled(s, a) && a.tid == t
            && StepsLeft(EffectOf(aes, s, a).phase) < StepsLeft(s.threads[t])
  {
    if HasPump(s.threads[t]) {
      NextStepOfPump(aes, s, t, response, ok);
    } else {
      NextStepOfCall(aes, s, t, response, ok);
    }
  }

  /** In every run, whatever the other calls are at and whatever the transport answers, a call can be
      brought to its end by its own steps, those of the transport and of its context: none waits for
      another. */
  lemma {:induction false} NoCallIsStuck(aes: Aes, mac: Mac, acts: seq<Action>, s: State, t: nat,
                                         response: Option<seq<byte>>, ok: bool)
    returns (acts': seq<Action>, s': State)
    requires Run(aes, mac, acts) == Some(s) && t in s.threads
    ensures Run(aes, mac, acts') == Some(s') && t in s'.threads && Ended(s'.threads[t])
    ensures s'.threads == s.threads[t := s'.threads[t]]
    decreases StepsLeft(s.threads[t])
  {
    if Ended(s.threads[t]) {
      acts', s' := acts, s;
    } else {
      NextStep(aes, s, t, response, ok);
      acts', s' := Take1(aes, mac, acts, s, NextOf(s.threads[t], t, response, ok));
      acts', s' := NoCallIsStuck(aes, mac, acts', s', t, response, ok);
    }
  }

  /** So a subscription that is taken can always come free again. */
  lemma SubscriptionComesFree(aes: Aes, mac: Mac, acts: seq<Action>, s: State)
    returns (acts': seq<Action>, s': State)
    requires Run(aes, mac, acts) == Some(s)
    ensures Run(aes, mac, acts') == Some(s') && !s'.notifyActive
  {
    acts', s' := acts, s;
    if s.notifyActive {
      RunHolder(aes, mac, acts, s);
      var t :| t in s.threads && Holds(s.threads[t]);
      acts', s' := NoCallIsStuck(aes, mac, acts, s, t, None, true);
      RunHolder(aes, mac, acts', s');
      assert forall x | x in s'.threads && x != t :: s'.threads[x] == s.threads[x];
    }
  }
}
