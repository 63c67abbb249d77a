/** What the server's snapshot shows after any run, told from the events alone: how the
    last session ended while none has begun to start, else where the running one is. */
module SupervisorHistory {
  import opened Options
  import opened Records
  import opened ServerSession
  import opened Supervisor
  import opened SupervisorSafety
  import opened SupervisorRuns

  // ---- The history -----------------------------------------------------------------------

  predicate AnyOpen(w: World) {
    exists i :: 0 <= i < |w.sessions| && w.sessions[i].Open()
  }

  /** A session was to be started and the operating system gave no thread. */
  predicate SpawnFails(w: World, e: Event) {
    || (e.TurnTop? && !e.ok && w.locals.pendingStart.Some? && !AnyOpen(w))
    || (e.HandleCommand? && e.cmd.StartServer? && !e.ok && w.locals.server.None?)
  }

  /** The server is removed with no session left to tell. */
  predicate RemovesIdle(w: World, e: Event) {
    e.HandleCommand? && e.cmd.RemoveServer? && !AnyOpen(w)
  }

  /** Why the last attempt to run a server failed, if it did: a new session and an idle
      removal start with a clean slate. */
  function NextFailure(w: World, e: Event, before: Option<string>): Option<string> {
    if SpawnFails(w, e) then Some(e.reason)
    else if RemovesIdle(w, e) then None
    else if !e.SessionStep? then before
    else
      match e.act
      case BuildRuntime => None
      case FailRuntime(reason) => Some(reason)
      case Reject(reason) => Some(reason)
      case ServeEnded(error) => error
      case _ => before
  }

  ghost function Failure(run: seq<Event>): Option<string>
    requires Valid(run)
  {
    if run == [] then None
    else NextFailure(After(run[..|run| - 1]), run[|run| - 1], Failure(run[..|run| - 1]))
  }

  /** What a session that serves shows: since when, and the clients last polled. */
  function NextServing(e: Event, before: (nat, seq<string>)): (nat, seq<string>) {
    if !e.SessionStep? then before
    else if e.act.FinishBind? then (e.act.now, [])
    else if e.act.PollClients? then (before.0, e.act.clients)
    else before
  }

  function Serving(run: seq<Event>): (nat, seq<string>) {
    if run == [] then (0, []) else NextServing(run[|run| - 1], Serving(run[..|run| - 1]))
  }

  /** Where the newest session is, in the snapshot's terms; `None` if it has not begun
      to start or has made its last write. */
  function Underway(w: World): Option<ServerPhase> {
    if w.sessions == [] then None
    else
      match w.sessions[|w.sessions| - 1].stage
      case Validating => Some(Starting)
      case Locked => Some(Starting)
      case Binding => Some(Starting)
      case Serving => Some(Running)
      case BindAbandoned(_) => Some(Stopping)
      case Closing(_, _) => Some(Stopping)
      case _ => None
  }

  function Shown(phase: Option<ServerPhase>, failure: Option<string>, serving: (nat, seq<string>)): ServerSnapshot {
    match phase
    case None => if failure.None? then ServerSnapshot(Stopped, None, [], None) else ServerSnapshot(Failed, None, [], failure)
    case Some(Running) => ServerSnapshot(Running, Some(serving.0), serving.1, None)
    case Some(p) => ServerSnapshot(p, None, [], None)
  }

  /** The failure known while the newest session runs is the one it ends with. */
  predicate EndKnown(w: World, failure: Option<string>) {
    Underway(w).Some? ==>
      var stage := w.sessions[|w.sessions| - 1].stage;
      match stage
      case Closing(cmd, error) => failure == error && (cmd.Some? ==> error.None?)
      case _ => failure.None?
  }

  predicate Told(w: World, failure: Option<string>, serving: (nat, seq<string>)) {
    w.snapshot == Shown(Underway(w), failure, serving) && EndKnown(w, failure)
  }

  lemma NewestTells(w: World)
    requires Inv(w)
    ensures AnyOpen(w) <==> w.sessions != [] && w.sessions[|w.sessions| - 1].Open()
  {
  }

  lemma RemoveTold(w: World, e: Event, failure: Option<string>, serving: (nat, seq<string>))
    requires Inv(w) && Enabled(w, e) && Told(w, failure, serving) && e.HandleCommand? && e.cmd.RemoveServer?
    ensures Told(Apply(w, e), NextFailure(w, e, failure), NextServing(e, serving))
  {
    NewestTells(w);
  }

  lemma StartTold(w: World, e: Event, failure: Option<string>, serving: (nat, seq<string>))
    requires Inv(w) && Enabled(w, e) && Told(w, failure, serving) && e.HandleCommand? && e.cmd.StartServer?
    ensures Told(Apply(w, e), NextFailure(w, e, failure), NextServing(e, serving))
  {
  }

  /** Neither the snapshot nor the newest session's stage differ. */
  predicate SameView(w: World, v: World) {
    && v.snapshot == w.snapshot && |v.sessions| == |w.sessions|
    && (w.sessions != [] ==> v.sessions[|w.sessions| - 1].stage == w.sessions[|w.sessions| - 1].stage)
  }

  lemma OthersOnlySend(w: World, e: Event)
    requires Enabled(w, e) && e.HandleCommand? && !e.cmd.StartServer? && !e.cmd.RemoveServer?
    ensures SameView(w, Apply(w, e))
  {
  }

  lemma OtherTold(w: World, e: Event, failure: Option<string>, serving: (nat, seq<string>))
    requires Enabled(w, e) && Told(w, failure, serving) && e.HandleCommand? && !e.cmd.StartServer? && !e.cmd.RemoveServer?
    ensures Told(Apply(w, e), NextFailure(w, e, failure), NextServing(e, serving))
  {
    OthersOnlySend(w, e);
  }

  lemma HandleTold(w: World, e: Event, failure: Option<string>, serving: (nat, seq<string>))
    requires Inv(w) && Enabled(w, e) && Told(w, failure, serving) && e.HandleCommand?
    ensures Told(Apply(w, e), NextFailure(w, e, failure), NextServing(e, serving))
  {
    match e.cmd
    case StartServer(_) => StartTold(w, e, failure, serving);
    case RemoveServer => RemoveTold(w, e, failure, serving);
    case _ => OtherTold(w, e, failure, serving);
  }

  lemma TopTold(w: World, e: Event, failure: Option<string>, serving: (nat, seq<string>))
    requires Inv(w) && Enabled(w, e) && Told(w, failure, serving) && e.TurnTop?
    ensures Told(Apply(w, e), NextFailure(w, e, failure), NextServing(e, serving))
  {
    NewestTells(w);
  }

  lemma ActTold(w: World, e: Event, failure: Option<string>, serving: (nat, seq<string>))
    requires Inv(w) && Enabled(w, e) && Told(w, failure, serving) && e.SessionStep?
    ensures Told(Apply(w, e), NextFailure(w, e, failure), NextServing(e, serving))
  {
    if e.session < |w.sessions| - 1 {
      assert e.act.SendDone?;
    }
  }

  lemma StepTold(w: World, e: Event, failure: Option<string>, serving: (nat, seq<string>))
    requires Inv(w) && Enabled(w, e) && Told(w, failure, serving)
    ensures Told(Apply(w, e), NextFailure(w, e, failure), NextServing(e, serving))
  {
    match e
    case HandleCommand(_, _, _) => HandleTold(w, e, failure, serving);
    case TurnTop(_, _) => TopTold(w, e, failure, serving);
    case SessionStep(_, _) => ActTold(w, e, failure, serving);
    case _ =>
  }

  /** In every run the snapshot is what the history says: Running since the last bind
      with the clients last polled, Starting or Stopping with nothing else, and otherwise
      Stopped, or Failed with the reason of the last failure not wiped since. */
  lemma {:induction false} SnapshotTellsHistory(run: seq<Event>)
    requires Valid(run)
    ensures After(run).snapshot == Shown(Underway(After(run)), Failure(run), Serving(run))
    ensures EndKnown(After(run), Failure(run))
  {
    if run != [] {
      var before := run[..|run| - 1];
      SnapshotTellsHistory(before);
      RunKeepsInv(before);
      StepTold(After(before), run[|run| - 1], Failure(before), Serving(before));
    }
  }

  // ---- Removals ----------------------------------------------------------------------------

  /** A removal handled with no session open leaves the default snapshot at once. */
  lemma IdleRemovalResets(run: seq<Event>)
    requires Valid(run) && run != [] && Valid(run[..|run| - 1])
    requires RemovesIdle(After(run[..|run| - 1]), run[|run| - 1])
    ensures After(run).snapshot == DEFAULT_SNAPSHOT
  {
    RunKeepsInv(run[..|run| - 1]);
    NewestTells(After(run[..|run| - 1]));
    SnapshotTellsHistory(run);
  }

  predicate IsRemoval(e: Event) {
    e.HandleCommand? && e.cmd.RemoveServer?
  }

  predicate NewestLaunched(w: World) {
    w.sessions != [] && w.sessions[|w.sessions| - 1].stage.Launched?
  }

  predicate FailsNow(e: Event) {
    e.SessionStep? && (e.act.FailRuntime? || e.act.Reject? || (e.act.ServeEnded? && e.act.error.Some?))
  }

  /** A session's failure outlives the removal: it was about to be shown or already was
      when the removal reached the session, or it comes before the session takes it. */
  ghost predicate Outlives(run: seq<Event>, remove: nat)
    requires Valid(run) && remove < |run|
    decreases |run|
  {
    if remove == |run| - 1 then Failure(run).Some? && !NewestLaunched(After(run))
    else Outlives(run[..|run| - 1], remove) || FailsNow(run[|run| - 1])
  }

  predicate Tracks(w: World, failure: Option<string>, outlives: bool) {
    if NewestLaunched(w) then !outlives else failure.Some? <==> outlives
  }

  lemma TracksStep(w: World, e: Event, failure: Option<string>, outlives: bool)
    requires Inv(w) && Enabled(w, e) && Quiet(w) && EndKnown(w, failure) && Tracks(w, failure, outlives)
    requires !IsStart(e) && !IsRemoval(e)
    ensures Tracks(Apply(w, e), NextFailure(w, e, failure), outlives || FailsNow(e))
  {
    QuietStep(w, e);
    if e.SessionStep? && e.session < |w.sessions| - 1 {
      assert e.act.SendDone?;
    }
  }

  lemma {:induction false} RemovalTracks(run: seq<Event>, remove: nat)
    requires Valid(run) && remove < |run| && IsRemoval(run[remove])
    requires forall k :: remove < k < |run| ==> !IsStart(run[k]) && !IsRemoval(run[k])
    ensures Tracks(After(run), Failure(run), Outlives(run, remove))
    decreases |run|
  {
    if remove < |run| - 1 {
      var before := run[..|run| - 1];
      RemovalTracks(before, remove);
      RunKeepsInv(before);
      SnapshotTellsHistory(before);
      StopIsFinal(before, remove);
      TracksStep(After(before), run[|run| - 1], Failure(before), Outlives(before, remove));
    }
  }

  /** After the last removal, and until the next start, once every session has ended the
      snapshot is the default if and only if no failure outlives the removal. */
  lemma RemovalShows(run: seq<Event>, remove: nat)
    requires Valid(run) && remove < |run| && IsRemoval(run[remove])
    requires forall k :: remove < k < |run| ==> !IsStart(run[k]) && !IsRemoval(run[k])
    requires !AnyOpen(After(run))
    ensures After(run).snapshot == DEFAULT_SNAPSHOT <==> !Outlives(run, remove)
  {
    SnapshotTellsHistory(run);
    RemovalTracks(run, remove);
    var w := After(run);
    if w.sessions != [] {
      assert !w.sessions[|w.sessions| - 1].Open();
    }
  }

  lemma Push(run: seq<Event>, e: Event) returns (longer: seq<Event>)
    requires Valid(run) && Enabled(After(run), e)
    ensures longer == run + [e] && Valid(longer) && After(longer) == Apply(After(run), e)
  {
    Extend(run, e);
    longer := run + [e];
  }

  lemma StartPreparing(config: ServerConfig) returns (p: Path)
    ensures IsPath(p, None) && p.from == INITIAL_WORLD
    ensures p.to == World(Handling(RemoveServer), Locals(Some(Handle(0, false)), None, false),
                          [Session(config, Validating, false, [], false)], ServerSnapshot(Starting, None, [], None))
  {
    p := StartOne(config);
    p := Go(p, None, SessionStep(0, BuildRuntime));
    p := Go(p, None, Receive(RemoveServer));
    p := Go(p, None, SweepAfterReceive);
  }

  lemma RunOf(p: Path) returns (run: seq<Event>)
    requires IsPath(p, None) && p.from == INITIAL_WORLD
    ensures Valid(run) && After(run) == p.to
  {
    LeadsExtendsRun([], p.events, p.to);
    run := [] + p.events;
  }

  lemma RemovalIsQueued(w: World)
    requires w.point == Handling(RemoveServer) && w.locals.server == Some(Handle(0, false))
    requires |w.sessions| == 1 && w.sessions[0].stage.Validating? && w.sessions[0].queue == []
    ensures Enabled(w, HandleCommand(RemoveServer, true, ""))
    ensures Apply(w, HandleCommand(RemoveServer, true, "")).sessions == [w.sessions[0].(queue := [CmdRemove])]
  {
    assert [] + [CmdRemove] == [CmdRemove];
  }

  lemma RemoveWhilePreparing(config: ServerConfig) returns (run: seq<Event>)
    ensures Valid(run) && run != [] && IsRemoval(run[|run| - 1])
    ensures After(run).sessions == [Session(config, Validating, false, [CmdRemove], false)]
  {
    var p := StartPreparing(config);
    run := RunOf(p);
    RemovalIsQueued(p.to);
    run := Push(run, HandleCommand(RemoveServer, true, ""));
  }

  /** A server removed while its session prepares, which then fails: the failure stays. */
  lemma FailureOutlivesRemoval(config: ServerConfig, reason: string) returns (run: seq<Event>, remove: nat)
    ensures Valid(run) && remove < |run| && IsRemoval(run[remove]) && forall k :: remove < k < |run| ==> run[k].SessionStep?
    ensures !AnyOpen(After(run)) && After(run).snapshot == ServerSnapshot(Failed, None, [], Some(reason))
  {
    run := RemoveWhilePreparing(config);
    remove := |run| - 1;
    run := Push(run, SessionStep(0, Reject(reason)));
    run := Push(run, SessionStep(0, DropLock));
    run := Push(run, SessionStep(0, DropReceiver));
  }

  // ---- The loop's exit -------------------------------------------------------------------------

  /** A loop that has exited left no session running on: one still open was told to end or
      is ending. */
  predicate ExitTells(w: World) {
    w.point.Gone? && w.locals.server.Some? && w.locals.server.value.session < |w.sessions| ==>
      var s := w.sessions[w.locals.server.value.session];
      s.Open() ==> EndUnderWay(s)
  }

  lemma ExitTellsStep(w: World, e: Event)
    requires Inv(w) && ExitTells(w) && Enabled(w, e)
    ensures ExitTells(Apply(w, e))
  {
    if e.SessionStep? && e.session < |w.sessions| - 1 {
      assert e.act.SendDone?;
    }
  }

  lemma {:induction false} RunExitTells(run: seq<Event>)
    requires Valid(run)
    ensures ExitTells(After(run))
  {
    if run != [] {
      RunExitTells(run[..|run| - 1]);
      RunKeepsInv(run[..|run| - 1]);
      ExitTellsStep(After(run[..|run| - 1]), run[|run| - 1]);
    }
  }

  lemma ExitEndsSessions(run: seq<Event>, i: nat)
    requires Valid(run) && After(run).point.Gone? && i < |After(run).sessions| && After(run).sessions[i].Open()
    ensures EndUnderWay(After(run).sessions[i])
  {
    RunKeepsInv(run);
    RunExitTells(run);
  }
}
