/** Continuations that must exist (a waiting start can always go through) and
    continuations that should not (a request lost to the second sweep, a
    completion polled twice), each with its exact condition. They start from any
    world that satisfies the invariant, so from every reachable one. */
module SupervisorRuns {
  import opened Options
  import opened Records
  import opened ServerSession
  import opened Supervisor
  import opened SupervisorSafety

  /** The events lead from one world to the other. */
  ghost predicate Leads(w: World, events: seq<Event>, w': World)
    decreases |events|
  {
    if events == [] then w == w'
    else Enabled(w, events[0]) && Leads(Apply(w, events[0]), events[1..], w')
  }

  lemma {:induction false} LeadsOn(w: World, events: seq<Event>, w': World, e: Event)
    requires Leads(w, events, w') && Enabled(w', e)
    ensures Leads(w, events + [e], Apply(w', e))
    decreases |events|
  {
    if events == [] {
      assert [e][1..] == [];
    } else {
      LeadsOn(Apply(w, events[0]), events[1..], w', e);
      assert (events + [e])[1..] == events[1..] + [e];
    }
  }

  lemma {:induction false} LeadsTrans(w: World, a: seq<Event>, w': World, b: seq<Event>, w'': World)
    requires Leads(w, a, w') && Leads(w', b, w'')
    ensures Leads(w, a + b, w'')
    decreases |a|
  {
    if a == [] {
      assert a + b == b;
    } else {
      LeadsTrans(Apply(w, a[0]), a[1..], w', b, w'');
      assert (a + b)[1..] == a[1..] + b;
    }
  }

  /** Appending such events to a run gives a run. */
  lemma {:induction false} LeadsExtendsRun(run: seq<Event>, events: seq<Event>, w': World)
    requires Valid(run) && Leads(After(run), events, w')
    ensures Valid(run + events) && After(run + events) == w'
    decreases |events|
  {
    if events == [] {
      assert run + events == run;
    } else {
      var longer, rest := run + [events[0]], events[1..];
      assert longer + rest == run + events;
      Extend(run, events[0]);
      LeadsExtendsRun(longer, rest, w');
    }
  }

  /** The config last asked for after the events, given the one before them. */
  function Requested(before: Option<ServerConfig>, events: seq<Event>): Option<ServerConfig>
    decreases |events|
  {
    if events == [] then before
    else if IsRequest(events[|events| - 1]) then Some(events[|events| - 1].cmd.config)
    else Requested(before, events[..|events| - 1])
  }

  lemma {:induction false} RequestedOverRun(run: seq<Event>, events: seq<Event>)
    ensures Requested(LastRequested(run), events) == LastRequested(run + events)
    decreases |events|
  {
    if events == [] {
      assert run + events == run;
    } else {
      RequestedOverRun(run, events[..|events| - 1]);
      assert (run + events)[..|run + events| - 1] == run + events[..|events| - 1];
    }
  }

  lemma {:induction false} RequestedConcat(before: Option<ServerConfig>, a: seq<Event>, b: seq<Event>)
    ensures Requested(before, a + b) == Requested(Requested(before, a), b)
    decreases |b|
  {
    if b == [] {
      assert a + b == a;
    } else {
      RequestedConcat(before, a, b[..|b| - 1]);
      assert (a + b)[..|a + b| - 1] == a + b[..|b| - 1];
    }
  }

  /** A path under construction: its start, its events, the world it has reached
      and the config last asked for. */
  datatype Path = Path(from: World, events: seq<Event>, to: World, requested: Option<ServerConfig>)

  ghost predicate IsPath(p: Path, before: Option<ServerConfig>) {
    Leads(p.from, p.events, p.to) && p.requested == Requested(before, p.events)
  }

  lemma Go(p: Path, before: Option<ServerConfig>, e: Event) returns (q: Path)
    requires IsPath(p, before) && Enabled(p.to, e)
    ensures IsPath(q, before) && q.from == p.from && q.to == Apply(p.to, e)
    ensures q.requested == if IsRequest(e) then Some(e.cmd.config) else p.requested
  {
    LeadsOn(p.from, p.events, p.to, e);
    assert (p.events + [e])[..|p.events|] == p.events;
    q := Path(p.from, p.events + [e], Apply(p.to, e),
              if IsRequest(e) then Some(e.cmd.config) else p.requested);
  }

  lemma Join(p: Path, before: Option<ServerConfig>, q: Path) returns (r: Path)
    requires IsPath(p, before) && IsPath(q, p.requested) && q.from == p.to
    ensures IsPath(r, before) && r.from == p.from && r.to == q.to && r.requested == q.requested
  {
    LeadsTrans(p.from, p.events, p.to, q.events, q.to);
    RequestedConcat(before, p.events, q.events);
    r := Path(p.from, p.events + q.events, q.to, q.requested);
  }

  /** The newest session of `w'` is a fresh one with this config, and it is the
      only one `w` does not have. */
  predicate Spawned(w: World, w': World, config: ServerConfig) {
    |w'.sessions| == |w.sessions| + 1 && w'.sessions[|w.sessions|] == NewSession(config)
  }

  // ---- Ending a session -----------------------------------------------------------------

  /** What a session's own steps leave alone. */
  predicate SameLoop(w: World, w': World) {
    w'.point == w.point && w'.locals == w.locals && |w'.sessions| == |w.sessions|
  }

  /** The newest session can always be run to the drop of its receiver by its own
      steps alone. */
  lemma DrainSession(w: World, before: Option<ServerConfig>) returns (p: Path)
    requires w.sessions != [] && !w.point.Gone?
    ensures IsPath(p, before) && p.from == w && SameLoop(w, p.to) && p.requested == before
    ensures p.to.sessions[|w.sessions| - 1].stage.Closed?
    decreases Rank(w.sessions[|w.sessions| - 1].stage)
  {
    p := Path(w, [], w, before);
    var i := |w.sessions| - 1;
    if w.sessions[i].Open() {
      p := Go(p, before, SessionStep(i, NextAct(w.sessions[i])));
      var rest := DrainSession(p.to, before);
      p := Join(p, before, rest);
    }
  }

  /** ... and on to its completion. */
  lemma FinishSession(w: World, before: Option<ServerConfig>) returns (p: Path)
    requires w.sessions != [] && !w.point.Gone?
    ensures IsPath(p, before) && p.from == w && SameLoop(w, p.to) && p.requested == before
    ensures var s := p.to.sessions[|w.sessions| - 1]; s.stage.Closed? && s.done
  {
    p := DrainSession(w, before);
    if !p.to.sessions[|w.sessions| - 1].done {
      p := Go(p, before, SessionStep(|w.sessions| - 1, SendDone));
    }
  }

  // ---- No lost wake-up -----------------------------------------------------------------

  /** The loop awaits a completion it has already consumed. */
  predicate PollsAgain(w: World) {
    && w.point.Waiting? && w.locals.pendingStart.Some?
    && w.locals.server.Some? && w.locals.server.value.donePolled
  }

  /** A loop that blocks with a start pending holds a handle and awaits its
      completion: its session can run to the end, and the pending config then
      comes up without another command. */
  lemma PendingCanStart(w: World, before: Option<ServerConfig>) returns (p: Path)
    requires Inv(w) && w.point.Waiting? && w.locals.pendingStart.Some? && !PollsAgain(w)
    ensures IsPath(p, before) && p.from == w && p.requested == before
    ensures Spawned(w, p.to, w.locals.pendingStart.value)
  {
    p := FinishSession(w, before);
    p := Go(p, before, WakeOnDone);
    p := Go(p, before, TurnTop(true, ""));
  }

  /** A send that waits for room waits on a session that is ending or can end, so
      it always gets through. */
  lemma BlockedSendProceeds(w: World, e: Event) returns (p: Path)
    requires Inv(w) && e.HandleCommand? && w.point == Handling(e.cmd)
    requires !Enabled(w, e)
    ensures IsPath(p, None) && p.from == w && Enabled(p.to, e)
    ensures w.sessions != [] && EndUnderWay(w.sessions[|w.sessions| - 1])
  {
    assert |w.sessions[|w.sessions| - 1].queue| == CHANNEL_CAPACITY;
    p := DrainSession(w, None);
  }

  // ---- A completion polled twice --------------------------------------------------------

  /** What a wake-up leads to: the handle is cleared and the pending config
      consumed, unless the session's runtime failed to build and its receiver is
      still undropped; exactly then the completion is polled again. */
  lemma WakeThenTop(w: World, ok: bool, reason: string)
    requires Inv(w) && Enabled(w, WakeOnDone)
    ensures Enabled(Apply(w, WakeOnDone), TurnTop(ok, reason))
    ensures var w' := Apply(Apply(w, WakeOnDone), TurnTop(ok, reason));
            && (PollsAgain(w') <==> w.sessions[|w.sessions| - 1].stage.RuntimeDone?)
            && (!PollsAgain(w') ==>
                  && w'.locals.pendingStart.None?
                  && (ok ==> Spawned(w, w', w.locals.pendingStart.value))
                  && (!ok ==> w'.locals.server.None? && w'.snapshot == FailedSnapshot(reason)))
  {
  }

  predicate RuntimeFails(e: Event) {
    e.SessionStep? && e.act.FailRuntime?
  }

  predicate NeverPolled(w: World) {
    && (forall i :: 0 <= i < |w.sessions| ==> !w.sessions[i].stage.RuntimeFailed? && !w.sessions[i].stage.RuntimeDone?)
    && (w.locals.server.Some? && w.locals.server.value.donePolled ==> w.point.Top?)
  }

  lemma NeverPolledStep(w: World, e: Event)
    requires Inv(w) && NeverPolled(w) && Enabled(w, e) && !RuntimeFails(e)
    ensures NeverPolled(Apply(w, e))
  {
    if e.TurnTop? && w.locals.server.Some? && w.locals.server.value.donePolled {
      assert HandleClosed(w);
    }
  }

  /** As long as every session's runtime builds, no completion is polled twice. */
  lemma {:induction false} NoDoublePoll(run: seq<Event>)
    requires Valid(run) && forall k :: 0 <= k < |run| ==> !RuntimeFails(run[k])
    ensures NeverPolled(After(run)) && !PollsAgain(After(run))
  {
    if run != [] {
      var before, e := run[..|run| - 1], run[|run| - 1];
      NoDoublePoll(before);
      RunKeepsInv(before);
      NeverPolledStep(After(before), e);
    }
  }

  // ---- Concrete runs ----------------------------------------------------------------------

  const EMPTY_PATH := Path(INITIAL_WORLD, [], INITIAL_WORLD, None)

  lemma StartOne(config: ServerConfig) returns (p: Path)
    ensures IsPath(p, None) && p.from == INITIAL_WORLD && p.requested == Some(config)
    ensures p.to == World(Waiting, Locals(Some(Handle(0, false)), None, false), [NewSession(config)], DEFAULT_SNAPSHOT)
  {
    p := Go(EMPTY_PATH, None, TurnTop(true, ""));
    p := Go(p, None, Receive(StartServer(config)));
    p := Go(p, None, SweepAfterReceive);
    p := Go(p, None, HandleCommand(StartServer(config), true, ""));
    p := Go(p, None, TurnTop(true, ""));
  }

  /** A session told to stop for a restart before it took its first step. */
  lemma StartThenRestart(first: ServerConfig, second: ServerConfig) returns (p: Path)
    ensures IsPath(p, None) && p.from == INITIAL_WORLD && p.requested == Some(second)
    ensures p.to == World(Top, Locals(Some(Handle(0, false)), Some(second), true),
                          [NewSession(first).(queue := [CmdStop])], DEFAULT_SNAPSHOT)
  {
    p := StartOne(first);
    p := Go(p, None, Receive(RestartServer(second)));
    p := Go(p, None, SweepAfterReceive);
    p := Go(p, None, HandleCommand(RestartServer(second), true, ""));
    assert p.to.sessions[0].queue == [CmdStop];
  }

  /** One failed runtime build is enough for a completion to be polled twice. */
  lemma DoublePollAfterRuntimeFailure(first: ServerConfig, second: ServerConfig) returns (run: seq<Event>)
    ensures Valid(run) && PollsAgain(After(run))
  {
    var p := StartThenRestart(first, second);
    p := Go(p, None, TurnTop(true, ""));
    p := Go(p, None, SessionStep(0, FailRuntime("")));
    p := Go(p, None, SessionStep(0, SendDoneEarly));
    p := Go(p, None, WakeOnDone);
    p := Go(p, None, TurnTop(true, ""));
    LeadsExtendsRun([], p.events, p.to);
    run := [] + p.events;
  }

  /** A restart whose command arrives between the session's close and its
      completion is dropped, and the older config comes up. */
  lemma RestartLost(first: ServerConfig, second: ServerConfig, third: ServerConfig) returns (run: seq<Event>)
    requires second != third
    ensures Valid(run) && LastRequested(run) == Some(third)
    ensures |After(run).sessions| == 2 && After(run).sessions[1] == NewSession(second)
  {
    var p := StartThenRestart(first, second);
    p := Go(p, None, TurnTop(true, ""));
    var drained := DrainSession(p.to, p.requested);
    p := Join(p, None, drained);
    p := Go(p, None, Receive(RestartServer(third)));
    p := Go(p, None, SweepAfterReceive);
    p := Go(p, None, HandleCommand(RestartServer(third), true, ""));
    p := Go(p, None, TurnTop(true, ""));
    LeadsExtendsRun([], p.events, p.to);
    RequestedOverRun([], p.events);
    run := [] + p.events;
  }

  // ---- A request lost to the sweep after a receive ------------------------------------------

  /** A session beside a pending config: when it ends, the pending config is
      started, whatever was asked for since. */
  lemma PendingOutlives(w: World, before: Option<ServerConfig>) returns (p: Path)
    requires Inv(w) && w.point.Top? && w.locals.pendingStart.Some?
    requires w.sessions != [] && w.sessions[|w.sessions| - 1].Open()
    requires w.locals.server == Some(Handle(|w.sessions| - 1, false))
    ensures IsPath(p, before) && p.from == w && p.requested == before
    ensures Spawned(w, p.to, w.locals.pendingStart.value)
  {
    p := Go(Path(w, [], w, before), before, TurnTop(true, ""));
    TopKeeps(w, true, "");
    var rest := PendingCanStart(p.to, before);
    p := Join(p, before, rest);
  }

  /** A start handled while a session runs is refused and changes nothing. */
  lemma RefuseStart(w: World, before: Option<ServerConfig>, config: ServerConfig) returns (p: Path)
    requires w.point.Top? && w.sessions != [] && w.sessions[|w.sessions| - 1].Open()
    requires w.locals.server == Some(Handle(|w.sessions| - 1, false)) && !w.locals.stopping
    ensures IsPath(p, before) && p.from == w && p.to == w && p.requested == Some(config)
  {
    p := Go(Path(w, [], w, before), before, TurnTop(true, ""));
    p := Go(p, before, Receive(StartServer(config)));
    p := Go(p, before, SweepAfterReceive);
    p := Go(p, before, HandleCommand(StartServer(config), true, ""));
  }

  /** A missed request leaves the pending config in place: under no session if it
      was dropped, beside a fresh one if it was started. */
  lemma AfterMiss(w: World, e: Event)
    requires Inv(w) && Enabled(w, e) && Misses(w, e)
    ensures var w' := Apply(w, e);
            && w'.point.Top? && w'.locals.pendingStart == w.locals.pendingStart && !w'.locals.stopping
            && if e.cmd.RestartServer? || !e.ok then w'.locals.server.None?
               else
                 && w'.sessions == w.sessions + [NewSession(e.cmd.config)]
                 && w'.locals.server == Some(Handle(|w.sessions|, false))
  {
  }

  /** `NoMiss` is exact: any request that misses can be followed by the spawn of
      a config that is not the last one asked for. */
  lemma MissGoesStale(w: World, e: Event) returns (p: Path, stale: ServerConfig)
    requires Inv(w) && Enabled(w, e) && Misses(w, e)
    ensures p.from == Apply(w, e) && IsPath(p, Some(e.cmd.config))
    ensures Spawned(p.from, p.to, stale) && p.requested != Some(stale)
  {
    AfterMiss(w, e);
    LoopStepKeeps(w, e);
    var w', before := Apply(w, e), Some(e.cmd.config);
    stale := w.locals.pendingStart.value;
    if e.cmd.RestartServer? || !e.ok {
      p := Go(Path(w', [], w', before), before, TurnTop(true, ""));
    } else if e.cmd.config != stale {
      p := PendingOutlives(w', before);
    } else {
      // The next start is refused because a session runs, yet the config left
      // behind still comes up after it.
      var other := stale.(endpointId := stale.endpointId + "'");
      assert |other.endpointId| == |stale.endpointId| + 1;
      p := RefuseStart(w', before, other);
      var rest := PendingOutlives(w', p.requested);
      p := Join(p, before, rest);
    }
  }
}
