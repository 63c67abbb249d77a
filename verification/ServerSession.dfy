/** The server session: one OS thread that moves a shared snapshot through its
    phases while it holds the per-identity lock, an endpoint and its command
    receiver. */
module ServerSession {
  import opened Options
  import opened Records

  // ---- Snapshot --------------------------------------------------------------

  datatype ServerPhase = Stopped | Starting | Running | Stopping | Failed

  datatype ServerSnapshot = ServerSnapshot(
    phase: ServerPhase, runningSince: Option<nat>,
    connectedClients: seq<string>, lastError: Option<string>)

  const DEFAULT_SNAPSHOT := ServerSnapshot(Stopped, None, [], None)

  datatype ServerCmd = CmdStop | CmdRemove | CmdShutdown

  /** What the fields promise each other, whoever reads the snapshot. */
  predicate Coherent(s: ServerSnapshot) {
    && (s.runningSince.Some? <==> s.phase == Running)
    && (s.connectedClients != [] ==> s.phase == Running)
    && (s.lastError.Some? <==> s.phase == Failed)
  }

  function FailedSnapshot(reason: string): ServerSnapshot {
    DEFAULT_SNAPSHOT.(phase := Failed, lastError := Some(reason))
  }

  /** The final write: reset after a removal, else Stopped or Failed. */
  function FinishSnapshot(s: ServerSnapshot, cmd: Option<ServerCmd>, error: Option<string>): ServerSnapshot {
    if cmd == Some(CmdRemove) then DEFAULT_SNAPSHOT
    else if error.None? then s.(phase := Stopped)
    else FailedSnapshot(error.value)
  }

  /** The shared snapshot as the session task writes it, one method a write. */
  class ServerSlot {
    var snapshot: ServerSnapshot

    constructor ()
      ensures snapshot == DEFAULT_SNAPSHOT
    {
      snapshot := DEFAULT_SNAPSHOT;
    }

    method Begin()
      modifies this
      ensures snapshot == DEFAULT_SNAPSHOT.(phase := Starting)
      ensures Coherent(snapshot)
    {
      snapshot := DEFAULT_SNAPSHOT;
      snapshot := snapshot.(phase := Starting);
    }

    method Fail(reason: string)
      modifies this
      ensures snapshot == FailedSnapshot(reason)
      ensures Coherent(snapshot)
    {
      snapshot := ServerSnapshot(Failed, None, [], Some(reason));
    }

    /** A stop that arrives while the endpoint is still binding. */
    method AbandonBind()
      requires Coherent(snapshot) && snapshot.phase == Starting
      modifies this
      ensures snapshot == old(snapshot).(phase := Stopping)
      ensures Coherent(snapshot)
    {
      snapshot := snapshot.(phase := Stopping);
    }

    method Bound(now: nat)
      requires Coherent(snapshot) && snapshot.phase == Starting
      modifies this
      ensures snapshot == old(snapshot).(phase := Running, runningSince := Some(now))
      ensures Coherent(snapshot)
    {
      snapshot := snapshot.(phase := Running);
      snapshot := snapshot.(runningSince := Some(now));
    }

    method Poll(clients: seq<string>)
      requires Coherent(snapshot) && snapshot.phase == Running
      modifies this
      ensures snapshot == old(snapshot).(connectedClients := clients)
      ensures Coherent(snapshot)
    {
      snapshot := snapshot.(connectedClients := clients);
    }

    method BeginClose()
      requires Coherent(snapshot) && snapshot.phase == Running
      modifies this
      ensures snapshot == old(snapshot).(phase := Stopping, runningSince := None, connectedClients := [])
      ensures Coherent(snapshot)
    {
      snapshot := snapshot.(phase := Stopping);
      snapshot := snapshot.(runningSince := None);
      snapshot := snapshot.(connectedClients := []);
    }

    method Finish(cmd: Option<ServerCmd>, error: Option<string>)
      requires Coherent(snapshot) && snapshot.phase == Stopping
      modifies this
      ensures snapshot == FinishSnapshot(old(snapshot), cmd, error)
      ensures Coherent(snapshot) && snapshot.phase in {Stopped, Failed}
    {
      if cmd == Some(CmdRemove) {
        snapshot := DEFAULT_SNAPSHOT;
      } else if error.None? {
        snapshot := snapshot.(phase := Stopped);
      } else {
        Fail(error.value);
      }
    }

    /** Every write of the session thread, tied to the step that makes it. */
    method Perform(s: Session, act: Act, senderGone: bool)
      requires CanAct(s, act, senderGone)
      requires Coherent(snapshot) && PhaseOf(s.stage, snapshot.phase)
      modifies this
      ensures snapshot == ActSnapshot(s, act, senderGone, old(snapshot))
      ensures Coherent(snapshot)
    {
      match act {
        case BuildRuntime => Begin();
        case FailRuntime(reason) => Fail(reason);
        case Reject(reason) => Fail(reason);
        case FinishBind(now) => Bound(now);
        case TakeCommand =>
          if s.stage.Binding? {
            AbandonBind();
          } else {
            BeginClose();
          }
        case BindWaitedOut => Finish(s.stage.cmd, None);
        case PollClients(clients) => Poll(clients);
        case ServeEnded(_) => BeginClose();
        case EndpointClosed => Finish(s.stage.cmd, s.stage.error);
        case _ =>
      }
    }
  }

  // ---- Thread ----------------------------------------------------------------

  /** Where the session thread stands. The last five stages make no more
      snapshot writes. */
  datatype Stage =
    | Launched                                  // spawned, runtime not built
    | Validating                                // Starting written, no lock yet
    | Locked                                    // lock taken, preparing
    | Binding                                   // bind races the command channel
    | BindAbandoned(cmd: Option<ServerCmd>)     // stopping, bind waited out
    | Serving                                   // serve, commands and polls race
    | Closing(cmd: Option<ServerCmd>, error: Option<string>)
    | Finished                                  // final snapshot write made
    | Unlocked                                  // lock dropped
    | RuntimeFailed                             // Failed written, `done` not sent
    | RuntimeDone                               // `done` sent, receiver not dropped
    | Closed                                    // receiver dropped

  /** One spawned session: `queue` is its bounded command channel, `locked`
      whether it holds the per-identity lock, `done` whether it has fired. */
  datatype Session = Session(
    config: ServerConfig, stage: Stage, locked: bool, queue: seq<ServerCmd>, done: bool)
  {
    /** The negation of the sender's `is_closed`. */
    predicate Open() {
      !stage.Closed?
    }

    /** Whether an endpoint with this identity can exist. */
    predicate EndpointMayLive() {
      stage.Binding? || stage.BindAbandoned? || stage.Serving? || stage.Closing?
    }
  }

  const CHANNEL_CAPACITY := 8

  function NewSession(config: ServerConfig): Session {
    Session(config, Launched, false, [], false)
  }

  /** One step of the session thread; the arguments are the outcomes it cannot
      choose (clock, bind and serve results, connected clients). */
  datatype Act =
    | BuildRuntime
    | FailRuntime(reason: string)
    | SendDoneEarly
    | DropCaptured
    | Reject(reason: string)
    | TakeLock
    | StartBind
    | FinishBind(now: nat)
    | TakeCommand
    | BindWaitedOut
    | PollClients(clients: seq<string>)
    | ServeEnded(error: Option<string>)
    | EndpointClosed
    | DropLock
    | DropReceiver
    | SendDone

  /** `senderGone`: the supervisor has exited, so a receive on an empty queue
      returns at once. */
  predicate CanAct(s: Session, act: Act, senderGone: bool) {
    match act
    case BuildRuntime => s.stage.Launched?
    case FailRuntime(_) => s.stage.Launched?
    case SendDoneEarly => s.stage.RuntimeFailed?
    case DropCaptured => s.stage.RuntimeDone?
    case Reject(_) => s.stage.Validating? || s.stage.Locked? || s.stage.Binding?
    case TakeLock => s.stage.Validating?
    case StartBind => s.stage.Locked?
    case FinishBind(_) => s.stage.Binding?
    case TakeCommand => (s.stage.Binding? || s.stage.Serving?) && (s.queue != [] || senderGone)
    case BindWaitedOut => s.stage.BindAbandoned?
    case PollClients(_) => s.stage.Serving?
    case ServeEnded(_) => s.stage.Serving?
    case EndpointClosed => s.stage.Closing?
    case DropLock => s.stage.Finished?
    case DropReceiver => s.stage.Unlocked?
    case SendDone => s.stage.Closed? && !s.done
  }

  function Received(s: Session): Option<ServerCmd> {
    if s.queue == [] then None else Some(s.queue[0])
  }

  function ActThread(s: Session, act: Act, senderGone: bool): (r: Session)
    requires CanAct(s, act, senderGone)
  {
    match act
    case BuildRuntime => s.(stage := Validating)
    case FailRuntime(_) => s.(stage := RuntimeFailed)
    case SendDoneEarly => s.(stage := RuntimeDone, done := true)
    case DropCaptured => s.(stage := Closed, queue := [])
    case Reject(_) => s.(stage := Finished)
    case TakeLock => s.(stage := Locked, locked := true)
    case StartBind => s.(stage := Binding)
    case FinishBind(_) => s.(stage := Serving)
    case TakeCommand =>
      var rest := if s.queue == [] then [] else s.queue[1..];
      if s.stage.Binding? then s.(stage := BindAbandoned(Received(s)), queue := rest)
      else s.(stage := Closing(Received(s), None), queue := rest)
    case BindWaitedOut => s.(stage := Finished)
    case PollClients(_) => s
    case ServeEnded(error) => s.(stage := Closing(None, error))
    case EndpointClosed => s.(stage := Finished)
    case DropLock => s.(stage := Unlocked, locked := false)
    case DropReceiver => s.(stage := Closed, queue := [])
    case SendDone => s.(done := true)
  }

  function ActSnapshot(s: Session, act: Act, senderGone: bool, snap: ServerSnapshot): (r: ServerSnapshot)
    requires CanAct(s, act, senderGone)
  {
    match act
    case BuildRuntime => DEFAULT_SNAPSHOT.(phase := Starting)
    case FailRuntime(reason) => FailedSnapshot(reason)
    case Reject(reason) => FailedSnapshot(reason)
    case FinishBind(now) => snap.(phase := Running, runningSince := Some(now))
    case TakeCommand =>
      if s.stage.Binding? then snap.(phase := Stopping)
      else snap.(phase := Stopping, runningSince := None, connectedClients := [])
    case BindWaitedOut => FinishSnapshot(snap, s.stage.cmd, None)
    case PollClients(clients) => snap.(connectedClients := clients)
    case ServeEnded(_) => snap.(phase := Stopping, runningSince := None, connectedClients := [])
    case EndpointClosed => FinishSnapshot(snap, s.stage.cmd, s.stage.error)
    case _ => snap
  }

  // ---- Per-session invariant ---------------------------------------------------

  predicate SessionOk(s: Session) {
    && |s.queue| <= CHANNEL_CAPACITY
    && (s.locked ==> s.stage.Locked? || s.EndpointMayLive() || s.stage.Finished?)
    && (s.stage.Locked? || s.EndpointMayLive() ==> s.locked)
    && (s.done ==> s.stage.RuntimeDone? || s.stage.Closed?)
    && (s.stage.RuntimeDone? ==> s.done)
  }

  /** The snapshot phase a session at this stage has left behind. */
  predicate PhaseOf(stage: Stage, phase: ServerPhase) {
    match stage
    case Launched => phase == Stopped || phase == Failed
    case Validating => phase == Starting
    case Locked => phase == Starting
    case Binding => phase == Starting
    case BindAbandoned(_) => phase == Stopping
    case Serving => phase == Running
    case Closing(_, _) => phase == Stopping
    case _ => phase == Stopped || phase == Failed
  }

  lemma ActKeeps(s: Session, act: Act, senderGone: bool, snap: ServerSnapshot)
    requires CanAct(s, act, senderGone) && SessionOk(s)
    requires Coherent(snap) && PhaseOf(s.stage, snap.phase)
    ensures SessionOk(ActThread(s, act, senderGone))
    ensures Coherent(ActSnapshot(s, act, senderGone, snap))
    ensures PhaseOf(ActThread(s, act, senderGone).stage, ActSnapshot(s, act, senderGone, snap).phase)
    ensures !s.Open() ==> ActSnapshot(s, act, senderGone, snap) == snap && !ActThread(s, act, senderGone).Open()
  {
  }

  /** Steps a session still has to take before its receiver drops, polls aside. */
  function Rank(stage: Stage): nat {
    match stage
    case Launched => 8
    case Validating => 7
    case Locked => 6
    case Binding => 5
    case BindAbandoned(_) => 3
    case Serving => 4
    case Closing(_, _) => 3
    case Finished => 2
    case Unlocked => 1
    case RuntimeFailed => 2
    case RuntimeDone => 1
    case Closed => 0
  }

  /** A stop has been queued or taken, or the session is ending by itself. */
  predicate EndUnderWay(s: Session) {
    && s.Open()
    && (s.queue != [] || !(s.stage.Launched? || s.stage.Validating? || s.stage.Locked?
                           || s.stage.Binding? || s.stage.Serving?))
  }

  /** Every open session has a step that brings it closer to dropping its
      receiver; once its end is under way, such a step needs no failure. */
  function NextAct(s: Session): (act: Act)
    requires s.Open()
    ensures CanAct(s, act, false)
    ensures Rank(ActThread(s, act, false).stage) < Rank(s.stage)
    ensures ActThread(s, act, false).done == (s.done || act.SendDoneEarly?)
    ensures EndUnderWay(s) ==>
              && !act.Reject? && !act.ServeEnded? && !act.FailRuntime?
              && (ActThread(s, act, false).Open() ==> EndUnderWay(ActThread(s, act, false)))
  {
    match s.stage
    case Launched => BuildRuntime
    case Validating => if s.queue == [] then Reject("") else TakeLock
    case Locked => StartBind
    case Binding => if s.queue == [] then Reject("") else TakeCommand
    case BindAbandoned(_) => BindWaitedOut
    case Serving => if s.queue == [] then ServeEnded(None) else TakeCommand
    case Closing(_, _) => EndpointClosed
    case Finished => DropLock
    case Unlocked => DropReceiver
    case RuntimeFailed => SendDoneEarly
    case RuntimeDone => DropCaptured
  }
}
