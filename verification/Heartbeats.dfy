/** The life of the heartbeat loop of client.go under any sequence of Login and Close calls.

  Calls to Login and Close follow each other; the loop runs beside them. A tick, and the moment at
  which a cancelled loop notices, can come at any time.
 */
module Heartbeats {
  import opened Sessions
  import opened Results

  datatype Action =
    | LoginSucceeds
    | LoginFails
    | CloseCalled
    | CloseReturns
    | Tick
    | LoopExits

  /** `closing` while a Close waits for the loop to be gone; `starts` counts loops ever started. */
  datatype Life = Life(heartbeat: Heartbeat, closing: bool, starts: nat)

  predicate Enabled(s: Life, a: Action)
  {
    match a
    case LoginSucceeds => !s.closing
    case LoginFails => !s.closing
    case CloseCalled => !s.closing
    case CloseReturns => s.closing && s.heartbeat == Stopped
    case Tick => s.heartbeat == Running || s.heartbeat == Stopping
    case LoopExits => s.heartbeat == Stopping
  }

  /** Close on a client without a loop returns at once. */
  function Step(s: Life, a: Action): Life
    requires Enabled(s, a)
  {
    match a
    case LoginSucceeds =>
      if s.heartbeat == Unstarted then s.(heartbeat := Running, starts := s.starts + 1) else s
    case CloseCalled =>
      if s.heartbeat == Unstarted then s
      else s.(heartbeat := if s.heartbeat == Running then Stopping else s.heartbeat, closing := true)
    case CloseReturns => s.(closing := false)
    case LoopExits => s.(heartbeat := Stopped)
    case _ => s
  }

  function Run(acts: seq<Action>): Option<Life>
  {
    if acts == [] then Some(Life(Unstarted, false, 0))
    else match Run(acts[..|acts| - 1])
      case None => None
      case Some(s) => if Enabled(s, acts[|acts| - 1]) then Some(Step(s, acts[|acts| - 1])) else None
  }

  predicate Alive(s: Life) { s.heartbeat == Running || s.heartbeat == Stopping }

  /** Some Close was called after the first successful Login. */
  predicate ClosedSinceStart(acts: seq<Action>)
  {
    exists i, j | 0 <= i < j < |acts| :: acts[i] == LoginSucceeds && acts[j] == CloseCalled
  }

  ghost predicate Kept(acts: seq<Action>, s: Life)
  {
    && s.starts == (if LoginSucceeds in acts then 1 else 0)
    && (s.heartbeat == Unstarted <==> LoginSucceeds !in acts)
    && (s.heartbeat == Running <==> LoginSucceeds in acts && !ClosedSinceStart(acts))
    && (s.heartbeat == Stopped <==> LoopExits in acts)
    && (s.closing ==> s.heartbeat == Stopping || s.heartbeat == Stopped)
    && (s.heartbeat == Stopping ==> s.closing)
  }

  lemma ClosedSnoc(acts: seq<Action>, a: Action)
    ensures ClosedSinceStart(acts + [a])
       <==> ClosedSinceStart(acts) || (a == CloseCalled && LoginSucceeds in acts)
  {
    var all := acts + [a];
    if ClosedSinceStart(acts) {
      var i, j :| 0 <= i < j < |acts| && acts[i] == LoginSucceeds && acts[j] == CloseCalled;
      assert all[i] == LoginSucceeds && all[j] == CloseCalled;
    }
    if a == CloseCalled && LoginSucceeds in acts {
      var i :| 0 <= i < |acts| && acts[i] == LoginSucceeds;
      assert all[i] == LoginSucceeds && all[|acts|] == CloseCalled;
    }
    if ClosedSinceStart(all) && !ClosedSinceStart(acts) {
      var i, j :| 0 <= i < j < |all| && all[i] == LoginSucceeds && all[j] == CloseCalled;
      assert acts[i] == LoginSucceeds;
    }
  }

  lemma {:induction false} RunKeeps(acts: seq<Action>)
    requires Run(acts).Some?
    ensures Kept(acts, Run(acts).value)
  {
    if acts != [] {
      var n := |acts| - 1;
      RunKeeps(acts[..n]);
      assert acts == acts[..n] + [acts[n]];
      ClosedSnoc(acts[..n], acts[n]);
    }
  }

  /** At most one loop is ever started, and none before a login has succeeded. */
  lemma OneLoop(acts: seq<Action>, s: Life)
    requires Run(acts) == Some(s)
    ensures s.starts <= 1
    ensures s.starts == 1 <==> LoginSucceeds in acts
    ensures LoginSucceeds !in acts ==> !Alive(s)
  {
    RunKeeps(acts);
  }

  /** Logging in is meant to leave a heartbeat running. The loop is started once per client, so it
      does exactly when no Close was called since the first successful login. */
  lemma LoginLeavesHeartbeatIff(acts: seq<Action>, s: Life)
    requires acts != [] && acts[|acts| - 1] == LoginSucceeds && Run(acts) == Some(s)
    ensures Alive(s) <==> !ClosedSinceStart(acts)
  {
    RunKeeps(acts);
    var n := |acts| - 1;
    RunKeeps(acts[..n]);
    assert acts[n] in acts;
  }

  lemma Extend(acts: seq<Action>, s: Life, a: Action)
    requires Run(acts) == Some(s) && Enabled(s, a)
    ensures Run(acts + [a]) == Some(Step(s, a))
  {
    assert (acts + [a])[..|acts|] == acts;
  }

  /** The heartbeat can beat at a moment exactly when a login has succeeded and the loop has not gone. */
  lemma TickIff(acts: seq<Action>, s: Life)
    requires Run(acts) == Some(s)
    ensures Run(acts + [Tick]).Some? <==> LoginSucceeds in acts && LoopExits !in acts
    ensures Run(acts + [Tick]).Some? ==> Run(acts + [Tick]) == Some(s)
  {
    RunKeeps(acts);
    assert (acts + [Tick])[..|acts|] == acts;
  }

  function Ticks(n: nat): seq<Action> { if n == 0 then [] else Ticks(n - 1) + [Tick] }

  /** And then it can beat on any number of times. */
  lemma {:induction false} BeatsOn(acts: seq<Action>, n: nat)
    requires Run(acts).Some? && LoginSucceeds in acts && LoopExits !in acts
    ensures Run(acts + Ticks(n)) == Run(acts)
  {
    if n == 0 {
      assert acts + Ticks(0) == acts;
    } else {
      BeatsOn(acts, n - 1);
      var before := acts + Ticks(n - 1);
      NoExit(n - 1);
      TickIff(before, Run(acts).value);
      assert acts + Ticks(n) == before + [Tick];
    }
  }

  lemma {:induction false} NoExit(n: nat)
    ensures LoopExits !in Ticks(n)
  {
    if n > 0 {
      NoExit(n - 1);
    }
  }

  /** A Close in progress can come to its end, and then every call can be made. */
  lemma CloseEnds(acts: seq<Action>, s: Life) returns (more: seq<Action>, s': Life)
    requires Run(acts) == Some(s)
    ensures Run(acts + more) == Some(s') && |more| <= 2 && (s.closing ==> !Alive(s'))
    ensures Enabled(s', LoginSucceeds) && Enabled(s', LoginFails) && Enabled(s', CloseCalled)
  {
    RunKeeps(acts);
    more, s' := [], s;
    assert acts + [] == acts;
    if s.closing {
      if s.heartbeat == Stopping {
        Extend(acts, s, LoopExits);
        more, s' := [LoopExits], Step(s, LoopExits);
      }
      Extend(acts + more, s', CloseReturns);
      assert acts + (more + [CloseReturns]) == acts + more + [CloseReturns];
      more, s' := more + [CloseReturns], Step(s', CloseReturns);
    }
  }

  /** A client that is closed and logs in again has none. */
  lemma NoHeartbeatAfterRelogin()
    ensures Run([LoginSucceeds, CloseCalled, LoopExits, CloseReturns, LoginSucceeds]) == Some(Life(Stopped, false, 1))
  {
    Extend([], Life(Unstarted, false, 0), LoginSucceeds);
    assert [] + [LoginSucceeds] == [LoginSucceeds];
    Extend([LoginSucceeds], Life(Running, false, 1), CloseCalled);
    assert [LoginSucceeds] + [CloseCalled] == [LoginSucceeds, CloseCalled];
    Extend([LoginSucceeds, CloseCalled], Life(Stopping, true, 1), LoopExits);
    assert [LoginSucceeds, CloseCalled] + [LoopExits] == [LoginSucceeds, CloseCalled, LoopExits];
    Extend([LoginSucceeds, CloseCalled, LoopExits], Life(Stopped, true, 1), CloseReturns);
    assert [LoginSucceeds, CloseCalled, LoopExits] + [CloseReturns]
        == [LoginSucceeds, CloseCalled, LoopExits, CloseReturns];
    Extend([LoginSucceeds, CloseCalled, LoopExits, CloseReturns], Life(Stopped, false, 1), LoginSucceeds);
    assert [LoginSucceeds, CloseCalled, LoopExits, CloseReturns] + [LoginSucceeds]
        == [LoginSucceeds, CloseCalled, LoopExits, CloseReturns, LoginSucceeds];
  }

  lemma {:induction false} StoppedForGood(acts: seq<Action>, n: nat)
    requires n <= |acts| && Run(acts).Some? && Run(acts[..n]).Some? && Run(acts[..n]).value.heartbeat == Stopped
    ensures Run(acts).value.heartbeat == Stopped
    ensures Tick !in acts[n..]
  {
    if n < |acts| {
      var m := |acts| - 1;
      assert acts[..m][..n] == acts[..n];
      StoppedForGood(acts[..m], n);
      assert acts[n..] == acts[..m][n..] + [acts[m]];
    } else {
      assert acts[..n] == acts;
    }
  }

  /** Once a Close that found a loop has returned, no loop runs and no tick comes in any later state,
      whatever logins and closes follow. */
  lemma CloseIsFinal(acts: seq<Action>, n: nat)
    requires Run(acts).Some? && n < |acts| && acts[n] == CloseReturns
    ensures !Alive(Run(acts).value) && Tick !in acts[n + 1..]
  {
    PrefixRuns(acts, n + 1);
    var g := acts[..n + 1];
    assert g[..|g| - 1] == acts[..n] && g[|g| - 1] == CloseReturns;
    StoppedForGood(acts, n + 1);
  }

  lemma {:induction false} PrefixRuns(acts: seq<Action>, n: nat)
    requires Run(acts).Some? && n <= |acts|
    ensures Run(acts[..n]).Some?
  {
    if n == |acts| {
      assert acts[..n] == acts;
    } else {
      assert acts[..|acts| - 1][..n] == acts[..n];
      PrefixRuns(acts[..|acts| - 1], n);
    }
  }

  /** A Close never waits for nothing: while it waits, the loop can still go, or it can return. */
  lemma CloseNeverStuck(acts: seq<Action>, s: Life)
    requires Run(acts) == Some(s) && s.closing
    ensures Enabled(s, LoopExits) || Enabled(s, CloseReturns)
  {
    RunKeeps(acts);
  }
}
