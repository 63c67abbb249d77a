/** When a failed runtime build leads to a completion polled twice: exactly when the
    loop still has a turn before it exits or blocks on the failed session. */
module SupervisorPolls {
  import opened Options
  import opened Records
  import opened ServerSession
  import opened Supervisor
  import opened SupervisorSafety
  import opened SupervisorRuns

  // ---- Commands are only queued by a stop ------------------------------------------------

  /** A session that was not told to stop has nothing queued. */
  predicate Quiet(w: World) {
    w.locals.server.Some? && w.locals.server.value.session < |w.sessions| && !w.locals.stopping && !w.point.Gone? ==>
      w.sessions[w.locals.server.value.session].queue == []
  }

  lemma QuietHandle(w: World, cmd: Command, ok: bool, reason: string)
    requires Inv(w) && Quiet(w) && Enabled(w, HandleCommand(cmd, ok, reason))
    ensures Quiet(Apply(w, HandleCommand(cmd, ok, reason)))
  {
  }

  lemma QuietStep(w: World, e: Event)
    requires Inv(w) && Quiet(w) && Enabled(w, e)
    ensures Quiet(Apply(w, e))
  {
    if e.HandleCommand? {
      QuietHandle(w, e.cmd, e.ok, e.reason);
    }
  }

  lemma {:induction false} RunIsQuiet(run: seq<Event>)
    requires Valid(run)
    ensures Quiet(After(run))
  {
    if run != [] {
      RunIsQuiet(run[..|run| - 1]);
      RunKeepsInv(run[..|run| - 1]);
      QuietStep(After(run[..|run| - 1]), run[|run| - 1]);
    }
  }

  // ---- With a turn left, the completion can be polled twice --------------------------------

  /** The loop has exited, is about to, or waits to send to the session. */
  predicate Stuck(w: World) {
    || w.point.Gone?
    || ((w.point.Arrived? || w.point.Handling?)
        && (w.point.cmd.Shutdown? || (Decide(w.locals, w.point.cmd).1.Send? && !CanSend(w))))
  }

  /** The handle names session `i`, whose runtime has failed and whose completion has
      not fired. */
  predicate Failing(w: World, i: nat) {
    && i < |w.sessions| && w.sessions[i].stage.RuntimeFailed?
    && w.locals.server == Some(Handle(i, false)) && (!w.locals.stopping ==> w.sessions[i].queue == [])
  }

  /** The completion of session `i` is polled again. */
  predicate PollsTwice(w: World, i: nat) {
    PollsAgain(w) && w.locals.server.value.session == i
  }

  lemma HandleWhileFailing(w: World, i: nat)
    requires Failing(w, i) && w.point.Handling? && !Stuck(w)
    ensures Enabled(w, HandleCommand(w.point.cmd, true, ""))
    ensures var v := Apply(w, HandleCommand(w.point.cmd, true, ""));
            Failing(v, i) && v.point.Top? && |v.sessions| == |w.sessions|
  {
  }

  /** The loop finishes what it has in hand and waits. */
  lemma BackToWaiting(w: World, i: nat) returns (p: Path)
    requires Failing(w, i) && !Stuck(w)
    ensures IsPath(p, None) && p.from == w && Failing(p.to, i) && p.to.point.Waiting? && |p.to.sessions| == |w.sessions|
  {
    p := Path(w, [], w, None);
    if p.to.point.Arrived? {
      p := Go(p, None, SweepAfterReceive);
    }
    if p.to.point.Handling? {
      HandleWhileFailing(p.to, i);
      p := Go(p, None, HandleCommand(p.to.point.cmd, true, ""));
    }
    if p.to.point.Top? {
      p := Go(p, None, TurnTop(true, ""));
    }
  }

  /** Another config can be made to wait behind the session. */
  lemma PutOff(w: World, i: nat, config: ServerConfig) returns (p: Path)
    requires Failing(w, i) && w.point.Waiting?
    ensures IsPath(p, None) && p.from == w && Failing(p.to, i) && p.to.point.Waiting? && |p.to.sessions| == |w.sessions|
    ensures p.to.locals.pendingStart.Some?
  {
    p := Path(w, [], w, None);
    if w.locals.pendingStart.None? {
      var cmd := if w.locals.stopping then StartServer(config) else RestartServer(config);
      p := Go(p, None, Receive(cmd));
      p := Go(p, None, SweepAfterReceive);
      p := Go(p, None, HandleCommand(cmd, true, ""));
      p := Go(p, None, TurnTop(true, ""));
    }
  }

  lemma PollTwice(w: World, i: nat) returns (p: Path)
    requires Failing(w, i) && w.point.Waiting? && w.locals.pendingStart.Some?
    ensures IsPath(p, None) && p.from == w && PollsTwice(p.to, i) && |p.to.sessions| == |w.sessions|
  {
    p := Path(w, [], w, None);
    p := Go(p, None, SessionStep(i, SendDoneEarly));
    p := Go(p, None, WakeOnDone);
    p := Go(p, None, TurnTop(true, ""));
  }

  lemma Chain(p: Path, q: Path) returns (r: Path)
    requires IsPath(p, None) && IsPath(q, None) && q.from == p.to
    ensures IsPath(r, None) && r.from == p.from && r.to == q.to
  {
    r := Join(p, None, q.(requested := Requested(p.requested, q.events)));
  }

  /** Whenever the runtime of the handle's session fails and the loop is not stuck, the
      session's completion can be polled twice, with no session spawned meanwhile. */
  lemma FailureIsPolledTwice(w: World, i: nat, reason: string, config: ServerConfig) returns (p: Path)
    requires Inv(w) && Quiet(w) && Enabled(w, SessionStep(i, FailRuntime(reason))) && !Stuck(w)
    ensures p.from == Apply(w, SessionStep(i, FailRuntime(reason))) && IsPath(p, None)
    ensures PollsTwice(p.to, i) && |p.to.sessions| == |w.sessions|
  {
    var v := Apply(w, SessionStep(i, FailRuntime(reason)));
    p := BackToWaiting(v, i);
    var q := PutOff(p.to, i, config);
    p := Chain(p, q);
    q := PollTwice(p.to, i);
    p := Chain(p, q);
  }

  // ---- Without one, it never is ------------------------------------------------------------------

  predicate Failed(w: World, i: nat) {
    i < |w.sessions| && (w.sessions[i].stage.RuntimeFailed? || w.sessions[i].stage.RuntimeDone?)
  }

  /** Session `i` has ended and the top of the loop forgets it before it waits again. */
  predicate Behind(w: World, i: nat) {
    i < |w.sessions| && !w.sessions[i].Open() && (w.locals.server == Some(Handle(i, true)) ==> w.point.Top?)
  }

  predicate StaysStuck(w: World, i: nat) {
    w.point.Gone? || Behind(w, i) || (Stuck(w) && Failed(w, i) && w.locals.server == Some(Handle(i, false)))
  }

  lemma BehindStep(w: World, e: Event, i: nat)
    requires Behind(w, i) && Enabled(w, e) && !w.point.Gone?
    ensures Behind(Apply(w, e), i)
  {
  }

  lemma StuckStep(w: World, e: Event, i: nat)
    requires StaysStuck(w, i) && Enabled(w, e)
    ensures StaysStuck(Apply(w, e), i)
  {
    if !w.point.Gone? && Behind(w, i) {
      BehindStep(w, e, i);
    }
  }

  lemma {:induction false} StuckOn(w: World, events: seq<Event>, w': World, i: nat)
    requires StaysStuck(w, i) && Leads(w, events, w')
    ensures StaysStuck(w', i)
    decreases |events|
  {
    if events != [] {
      StuckStep(w, events[0], i);
      StuckOn(Apply(w, events[0]), events[1..], w', i);
    }
  }

  /** And if the loop is stuck when the runtime fails, whatever follows does not poll that
      completion twice. */
  lemma StuckPollsOnce(w: World, i: nat, reason: string, events: seq<Event>, w': World)
    requires Inv(w) && Enabled(w, SessionStep(i, FailRuntime(reason))) && Stuck(w)
    requires Leads(Apply(w, SessionStep(i, FailRuntime(reason))), events, w')
    ensures !PollsTwice(w', i)
  {
    StuckOn(Apply(w, SessionStep(i, FailRuntime(reason))), events, w', i);
  }
}
