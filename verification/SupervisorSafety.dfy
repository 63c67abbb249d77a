/** What holds in every run of the supervisor and its sessions. */
module SupervisorSafety {
  import opened Options
  import opened Records
  import opened ServerSession
  import opened Supervisor

  // ---- The invariant -------------------------------------------------------------

  predicate SessionsInv(w: World) {
    && (forall i :: 0 <= i < |w.sessions| ==> SessionOk(w.sessions[i]))
    && (forall i :: 0 <= i < |w.sessions| - 1 ==> !w.sessions[i].Open())
    && (w.locals.server.Some? ==> w.locals.server.value.session == |w.sessions| - 1)
    && (w.locals.server.None? && w.sessions != [] ==> !w.sessions[|w.sessions| - 1].Open())
  }

  predicate SnapshotInv(w: World) {
    && Coherent(w.snapshot)
    && (if w.sessions == [] then w.snapshot.phase in {Stopped, Failed}
        else PhaseOf(w.sessions[|w.sessions| - 1].stage, w.snapshot.phase))
  }

  predicate LoopInv(w: World)
    requires SessionsInv(w)
  {
    && (w.point.Waiting? && w.locals.pendingStart.Some? ==> w.locals.server.Some?)
    && (w.locals.server.None? && !w.point.Top? ==> !w.locals.stopping)
    && (w.locals.server.Some? ==>
          var s := w.sessions[w.locals.server.value.session];
          && (w.locals.server.value.donePolled ==> s.done)
          && (w.locals.stopping ==> EndUnderWay(s) || !s.Open()))
  }

  predicate Inv(w: World) {
    SessionsInv(w) && SnapshotInv(w) && LoopInv(w)
  }

  lemma SpawnKeeps(w: World, config: ServerConfig, ok: bool, reason: string)
    requires SessionsInv(w) && SnapshotInv(w) && w.locals.server.None?
    requires !w.locals.stopping && (w.point.Waiting? ==> w.locals.pendingStart.None?)
    ensures Inv(SpawnServer(w, config, ok, reason))
  {
  }

  lemma SessionStepKeeps(w: World, i: nat, act: Act)
    requires Inv(w) && Enabled(w, SessionStep(i, act))
    ensures Inv(Apply(w, SessionStep(i, act)))
  {
    if i == |w.sessions| - 1 {
      ActKeeps(w.sessions[i], act, w.point.Gone?, w.snapshot);
    } else {
      assert act.SendDone?;
    }
  }

  lemma TopKeeps(w: World, ok: bool, reason: string)
    requires Inv(w) && Enabled(w, TurnTop(ok, reason))
    ensures Inv(Apply(w, TurnTop(ok, reason)))
  {
    var l := SweepTop(w.locals, HandleClosed(w));
    if l.server.None? && l.pendingStart.Some? {
      SpawnKeeps(w.(point := Waiting, locals := l.(pendingStart := None)), l.pendingStart.value, ok, reason);
    }
  }

  lemma SendKeeps(w: World, cmd: ServerCmd)
    requires SessionsInv(w) && SnapshotInv(w) && CanSend(w) && !w.point.Waiting?
    requires !w.locals.server.value.donePolled || w.sessions[|w.sessions| - 1].done
    ensures Inv(SendTo(w, cmd))
  {
  }

  lemma HandleKeeps(w: World, cmd: Command, ok: bool, reason: string)
    requires Inv(w) && Enabled(w, HandleCommand(cmd, ok, reason))
    ensures Inv(Apply(w, HandleCommand(cmd, ok, reason)))
  {
    var (l, effect) := Decide(w.locals, cmd);
    var w' := w.(point := if cmd.Shutdown? then Gone else Top, locals := l);
    match effect
    case Spawn(config) => SpawnKeeps(w', config, ok, reason);
    case Send(c) => SendKeeps(w', c);
    case _ =>
  }

  lemma LoopStepKeeps(w: World, e: Event)
    requires Inv(w) && Enabled(w, e) && !e.SessionStep?
    ensures Inv(Apply(w, e))
  {
    match e
    case TurnTop(ok, reason) => TopKeeps(w, ok, reason);
    case HandleCommand(cmd, ok, reason) => HandleKeeps(w, cmd, ok, reason);
    case _ =>
  }

  lemma {:induction false} RunKeepsInv(run: seq<Event>)
    requires Valid(run)
    ensures Inv(After(run))
  {
    if run != [] {
      var before, e := run[..|run| - 1], run[|run| - 1];
      RunKeepsInv(before);
      if e.SessionStep? {
        SessionStepKeeps(After(before), e.session, e.act);
      } else {
        LoopStepKeeps(After(before), e);
      }
    }
  }

  // ---- One live session ------------------------------------------------------------

  /** At most one session has not dropped its receiver; the lock and the
      endpoint are only ever held by that one, and it is the one in the handle. */
  lemma OneLiveSession(run: seq<Event>, i: nat, j: nat)
    requires Valid(run)
    requires i < |After(run).sessions| && j < |After(run).sessions|
    requires After(run).sessions[i].Open()
    ensures After(run).sessions[j].Open() ==> i == j
    ensures After(run).sessions[j].locked || After(run).sessions[j].EndpointMayLive() ==> i == j
    ensures After(run).locals.server.Some? && After(run).locals.server.value.session == i
  {
    RunKeepsInv(run);
  }

  /** A session is spawned only once every earlier one has made its final write,
      dropped its lock and dropped its receiver. */
  lemma SpawnOnlyAfterClose(run: seq<Event>, e: Event, i: nat)
    requires Valid(run) && Enabled(After(run), e)
    requires |Apply(After(run), e).sessions| > |After(run).sessions|
    requires i < |After(run).sessions|
    ensures After(run).sessions[i].stage.Closed? && !After(run).sessions[i].locked
    ensures After(run).snapshot.phase in {Stopped, Failed}
    ensures !e.SessionStep?
  {
    RunKeepsInv(run);
  }

  /** A handle is only ever dropped or replaced when its session has closed. */
  lemma LiveHandleKept(run: seq<Event>, e: Event)
    requires Valid(run) && Enabled(After(run), e)
    requires After(run).locals.server.Some?
    requires After(run).sessions != [] ==> After(run).sessions[|After(run).sessions| - 1].Open()
    ensures Apply(After(run), e).locals.server.Some?
    ensures Apply(After(run), e).locals.server.value.session == After(run).locals.server.value.session
    ensures |Apply(After(run), e).sessions| == |After(run).sessions|
  {
    RunKeepsInv(run);
  }

  // ---- The snapshot ----------------------------------------------------------------

  /** Coherent in every reachable state, across every handover, and it reads
      Running exactly while a session is serving. */
  lemma SnapshotTellsTheTruth(run: seq<Event>)
    requires Valid(run)
    ensures Coherent(After(run).snapshot)
    ensures After(run).snapshot.phase == Running
            <==> exists i :: 0 <= i < |After(run).sessions| && After(run).sessions[i].stage.Serving?
    ensures After(run).snapshot.phase in {Starting, Running, Stopping}
            ==> exists i :: 0 <= i < |After(run).sessions| && After(run).sessions[i].Open()
  {
    RunKeepsInv(run);
    var w := After(run);
    if w.snapshot.phase in {Starting, Running, Stopping} {
      assert w.sessions[|w.sessions| - 1].Open();
    }
    if w.snapshot.phase == Running {
      assert w.sessions[|w.sessions| - 1].stage.Serving?;
    }
    forall i | 0 <= i < |w.sessions| && w.sessions[i].stage.Serving?
      ensures w.snapshot.phase == Running
    {
      assert w.sessions[i].Open();
      assert i == |w.sessions| - 1;
    }
  }

  /** Whoever changes the snapshot has it to itself: either the one open session
      does, or the loop does while no session is open. In particular a session
      whose channel reads closed never writes again. */
  lemma OneWriter(run: seq<Event>, e: Event)
    requires Valid(run) && Enabled(After(run), e)
    requires Apply(After(run), e).snapshot != After(run).snapshot
    ensures if e.SessionStep? then
              After(run).sessions[e.session].Open() && e.session == |After(run).sessions| - 1
            else
              forall i :: 0 <= i < |After(run).sessions| ==> !After(run).sessions[i].Open()
  {
    RunKeepsInv(run);
    var w := After(run);
    if e.SessionStep? {
      assert w.sessions[e.session].Open();
    }
  }

  // ---- Stop is final ---------------------------------------------------------------

  predicate Quiet(w: World) {
    w.locals.pendingStart.None? && (w.locals.server.Some? ==> w.locals.stopping)
  }

  predicate IsStop(e: Event) {
    e.HandleCommand? && (e.cmd.StopServer? || e.cmd.RemoveServer?)
  }

  predicate IsStart(e: Event) {
    e.HandleCommand? && e.cmd.StartServer?
  }

  lemma QuietStep(w: World, e: Event)
    requires Inv(w) && Enabled(w, e) && Quiet(w) && !IsStart(e)
    ensures Quiet(Apply(w, e)) && |Apply(w, e).sessions| == |w.sessions|
  {
  }

  /** After a stop or a removal is handled, whatever restarts and session ends
      follow, no session is spawned before the next start is handled. */
  lemma {:induction false} StopIsFinal(run: seq<Event>, stop: nat)
    requires Valid(run) && stop < |run| && IsStop(run[stop])
    requires forall k :: stop < k < |run| ==> !IsStart(run[k])
    ensures Valid(run[..stop + 1])
    ensures |After(run).sessions| == |After(run[..stop + 1]).sessions|
    ensures Quiet(After(run))
  {
    var before, e := run[..|run| - 1], run[|run| - 1];
    RunKeepsInv(before);
    if stop == |run| - 1 {
      assert run[..stop + 1] == run;
    } else {
      StopIsFinal(before, stop);
      QuietStep(After(before), e);
      assert before[..stop + 1] == run[..stop + 1];
    }
  }

  // ---- Latest config wins ------------------------------------------------------------

  predicate IsRequest(e: Event) {
    e.HandleCommand? && (e.cmd.StartServer? || e.cmd.RestartServer?)
  }

  /** The config of the last start or restart handled in the run. */
  function LastRequested(run: seq<Event>): Option<ServerConfig> {
    if run == [] then None
    else if IsRequest(run[|run| - 1]) then Some(run[|run| - 1].cmd.config)
    else LastRequested(run[..|run| - 1])
  }

  /** The sweep after a receive has just dropped the handle under a pending start. */
  predicate Stranded(w: World) {
    w.point.Handling? && w.locals.server.None? && w.locals.pendingStart.Some?
  }

  /** A request that goes wrong in a stranded state: it asks for another config
      than the pending one, or it starts a session beside the pending config. */
  predicate Misses(w: World, e: Event) {
    && IsRequest(e) && Stranded(w)
    && (w.locals.pendingStart != Some(e.cmd.config) || (e.cmd.StartServer? && e.ok))
  }

  ghost predicate NoMiss(run: seq<Event>)
    requires Valid(run)
    decreases |run|
  {
    run == [] || (NoMiss(run[..|run| - 1]) && !Misses(After(run[..|run| - 1]), run[|run| - 1]))
  }

  /** The pending config is the last one asked for, and pending means a stop is
      under way unless the handle has just been dropped. */
  predicate PendingIsLatest(w: World, latest: Option<ServerConfig>) {
    w.locals.pendingStart.Some? ==>
      w.locals.pendingStart == latest && (w.locals.server.Some? ==> w.locals.stopping)
  }

  lemma LatestStep(w: World, e: Event, latest: Option<ServerConfig>)
    requires Inv(w) && Enabled(w, e) && PendingIsLatest(w, latest) && !Misses(w, e)
    ensures var latest' := if IsRequest(e) then Some(e.cmd.config) else latest;
            && PendingIsLatest(Apply(w, e), latest')
            && (|Apply(w, e).sessions| > |w.sessions| ==>
                  Some(Apply(w, e).sessions[|w.sessions|].config) == latest')
  {
  }

  lemma {:induction false} PendingFollowsRequests(run: seq<Event>)
    requires Valid(run) && NoMiss(run)
    ensures PendingIsLatest(After(run), LastRequested(run))
  {
    if run != [] {
      var before := run[..|run| - 1];
      PendingFollowsRequests(before);
      RunKeepsInv(before);
      LatestStep(After(before), run[|run| - 1], LastRequested(before));
    }
  }

  /** In every run without a miss, each session is spawned with the config of the
      most recent start or restart handled. */
  lemma LatestConfigWins(run: seq<Event>, e: Event)
    requires Valid(run) && Enabled(After(run), e) && Valid(run + [e]) && NoMiss(run + [e])
    requires |Apply(After(run), e).sessions| > |After(run).sessions|
    ensures Some(Apply(After(run), e).sessions[|After(run).sessions|].config) == LastRequested(run + [e])
  {
    assert (run + [e])[..|run|] == run;
    PendingFollowsRequests(run);
    RunKeepsInv(run);
    LatestStep(After(run), e, LastRequested(run));
  }
}
