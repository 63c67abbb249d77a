/** The supervisor loop that owns the server session: it races a command queue
    against the end of the session thread, with a start put off until the old
    session has let go of its lock. A run is a sequence of events, one per
    atomic step of the loop or of a session thread, interleaved freely. */
module Supervisor {
  import opened Options
  import opened Records
  import opened ServerSession

  // ---- The loop's own variables ------------------------------------------------

  datatype Command =
    | StartServer(config: ServerConfig)
    | RestartServer(config: ServerConfig)
    | StopServer
    | RemoveServer
    | ProfileCommand          // anything routed to a profile session
    | Shutdown

  /** A session handle; `donePolled` is set once its completion was consumed. */
  datatype Handle = Handle(session: nat, donePolled: bool)

  datatype Locals = Locals(server: Option<Handle>, pendingStart: Option<ServerConfig>, stopping: bool)

  /** What a handled command asks of the world outside the loop. */
  datatype Effect =
    | NoEffect
    | Spawn(config: ServerConfig)
    | Send(cmd: ServerCmd)
    | ResetSnapshot

  const INITIAL_LOCALS := Locals(None, None, false)

  function SweepTop(l: Locals, closed: bool): Locals {
    var l' := if l.server.Some? && closed then l.(server := None) else l;
    if l'.server.None? then l'.(stopping := false) else l'
  }

  /** The sweep after a receive: unlike the one at the top of the loop it is not
      followed by a start of the pending config. */
  function SweepReceived(l: Locals, closed: bool): Locals {
    if l.server.Some? && closed then l.(server := None, stopping := false) else l
  }

  function Decide(l: Locals, cmd: Command): (Locals, Effect) {
    match cmd
    case StartServer(config) =>
      if l.server.None? then (l, Spawn(config))
      else if l.stopping then (l.(pendingStart := Some(config)), NoEffect)
      else (l, NoEffect)
    case RestartServer(config) =>
      if l.server.None? then (l, NoEffect)
      else if l.stopping then
        (if l.pendingStart.Some? then l.(pendingStart := Some(config)) else l, NoEffect)
      else (l.(stopping := true, pendingStart := Some(config)), Send(CmdStop))
    case StopServer =>
      if l.server.None? then (l.(pendingStart := None), NoEffect)
      else (l.(pendingStart := None, stopping := true), Send(CmdStop))
    case RemoveServer =>
      if l.server.None? then (l.(pendingStart := None, stopping := false), ResetSnapshot)
      else (l.(pendingStart := None, stopping := true), Send(CmdRemove))
    case ProfileCommand => (l, NoEffect)
    case Shutdown => (l, if l.server.None? then NoEffect else Send(CmdShutdown))
  }

  /** The loop body on its mutable variables, cut where it reads the outside. */
  class RunLoop {
    var server: Option<Handle>
    var pendingStart: Option<ServerConfig>
    var stopping: bool

    ghost function View(): Locals
      reads this
    {
      Locals(server, pendingStart, stopping)
    }

    constructor ()
      ensures View() == INITIAL_LOCALS
    {
      server, pendingStart, stopping := None, None, false;
    }

    /** From the top of the loop to the receive; `closed` is the handle's
        `is_closed`, and `spawn` the config to start now, if any. */
    method TopOfLoop(closed: bool) returns (spawn: Option<ServerConfig>)
      modifies this
      ensures var swept := SweepTop(old(View()), closed);
              if swept.server.None? then
                spawn == swept.pendingStart && View() == swept.(pendingStart := None)
              else
                spawn == None && View() == swept
      ensures pendingStart.Some? ==> server.Some?
    {
      if server.Some? && closed {
        server := None;
      }
      if server.None? {
        stopping := false;
      }
      spawn := None;
      if server.None? && pendingStart.Some? {
        spawn := pendingStart;
        pendingStart := None;
      }
    }

    method AfterReceive(closed: bool)
      modifies this
      ensures View() == SweepReceived(old(View()), closed)
    {
      if server.Some? && closed {
        server := None;
        stopping := false;
      }
    }

    method Handle(cmd: Command) returns (effect: Effect)
      modifies this
      ensures (View(), effect) == Decide(old(View()), cmd)
    {
      effect := NoEffect;
      match cmd {
        case StartServer(config) =>
          if server.Some? && stopping {
            pendingStart := Some(config);
          } else if server.None? {
            effect := Spawn(config);
          }
        case RestartServer(config) =>
          if server.Some? && stopping {
            if pendingStart.Some? {
              pendingStart := Some(config);
            }
          } else if server.Some? {
            effect := Send(CmdStop);
            stopping := true;
            pendingStart := Some(config);
          }
        case StopServer =>
          pendingStart := None;
          if server.Some? {
            effect := Send(CmdStop);
            stopping := true;
          }
        case RemoveServer =>
          pendingStart := None;
          stopping := server.Some?;
          effect := if server.Some? then Send(CmdRemove) else ResetSnapshot;
        case ProfileCommand =>
        case Shutdown =>
          if server.Some? {
            effect := Send(CmdShutdown);
          }
      }
    }
  }

  // ---- The whole system --------------------------------------------------------

  datatype Point =
    | Top
    | Waiting
    | Arrived(cmd: Command)   // received, the sweep after it not run yet
    | Handling(cmd: Command)
    | Gone

  /** `sessions` holds every session thread ever spawned, oldest first. */
  datatype World = World(point: Point, locals: Locals, sessions: seq<Session>, snapshot: ServerSnapshot)

  const INITIAL_WORLD := World(Top, INITIAL_LOCALS, [], DEFAULT_SNAPSHOT)

  /** `ok` is whether the OS could spawn a thread, `reason` its error if not. */
  datatype Event =
    | TurnTop(ok: bool, reason: string)
    | Receive(cmd: Command)
    | WakeOnDone
    | SweepAfterReceive
    | HandleCommand(cmd: Command, ok: bool, reason: string)
    | SessionStep(session: nat, act: Act)

  predicate HandleClosed(w: World) {
    w.locals.server.Some? && w.locals.server.value.session < |w.sessions| &&
    !w.sessions[w.locals.server.value.session].Open()
  }

  /** A send waits for room in the channel and fails at once on a closed one. */
  predicate CanSend(w: World) {
    w.locals.server.Some? && w.locals.server.value.session < |w.sessions| &&
    var s := w.sessions[w.locals.server.value.session];
    s.Open() ==> |s.queue| < CHANNEL_CAPACITY
  }

  predicate Enabled(w: World, e: Event) {
    match e
    case TurnTop(_, _) => w.point.Top?
    case Receive(_) => w.point.Waiting?
    case WakeOnDone =>
      && w.point.Waiting?
      && w.locals.pendingStart.Some? && w.locals.server.Some?
      && w.locals.server.value.session < |w.sessions|
      && w.sessions[w.locals.server.value.session].done
      && !w.locals.server.value.donePolled
    case SweepAfterReceive => w.point.Arrived?
    case HandleCommand(cmd, _, _) =>
      && w.point == Handling(cmd)
      && (Decide(w.locals, cmd).1.Send? ==> CanSend(w))
    case SessionStep(i, act) => i < |w.sessions| && CanAct(w.sessions[i], act, w.point.Gone?)
  }

  function SpawnServer(w: World, config: ServerConfig, ok: bool, reason: string): World {
    if ok then
      w.(locals := w.locals.(server := Some(Handle(|w.sessions|, false))),
         sessions := w.sessions + [NewSession(config)])
    else
      w.(locals := w.locals.(server := None), snapshot := FailedSnapshot(reason))
  }

  function SendTo(w: World, cmd: ServerCmd): World
    requires CanSend(w)
  {
    var i := w.locals.server.value.session;
    var s := w.sessions[i];
    if s.Open() then w.(sessions := w.sessions[i := s.(queue := s.queue + [cmd])])
    else if cmd == CmdRemove then w.(snapshot := DEFAULT_SNAPSHOT)
    else w
  }

  function Apply(w: World, e: Event): World
    requires Enabled(w, e)
  {
    match e
    case TurnTop(ok, reason) =>
      var l := SweepTop(w.locals, HandleClosed(w));
      var w' := w.(point := Waiting, locals := l);
      if l.server.None? && l.pendingStart.Some? then
        SpawnServer(w'.(locals := l.(pendingStart := None)), l.pendingStart.value, ok, reason)
      else w'
    case Receive(cmd) => w.(point := Arrived(cmd))
    case WakeOnDone =>
      w.(point := Top,
         locals := w.locals.(server := Some(w.locals.server.value.(donePolled := true))))
    case SweepAfterReceive =>
      w.(point := Handling(w.point.cmd), locals := SweepReceived(w.locals, HandleClosed(w)))
    case HandleCommand(cmd, ok, reason) =>
      var (l, effect) := Decide(w.locals, cmd);
      var w' := w.(point := if cmd.Shutdown? then Gone else Top, locals := l);
      (match effect
       case NoEffect => w'
       case Spawn(config) => SpawnServer(w', config, ok, reason)
       case Send(c) => SendTo(w', c)
       case ResetSnapshot => w'.(snapshot := DEFAULT_SNAPSHOT))
    case SessionStep(i, act) =>
      var gone := w.point.Gone?;
      w.(sessions := w.sessions[i := ActThread(w.sessions[i], act, gone)],
         snapshot := ActSnapshot(w.sessions[i], act, gone, w.snapshot))
  }

  // ---- Runs ----------------------------------------------------------------------

  ghost predicate Valid(run: seq<Event>)
    decreases |run|, 0
  {
    run == [] || (Valid(run[..|run| - 1]) && Enabled(After(run[..|run| - 1]), run[|run| - 1]))
  }

  ghost function After(run: seq<Event>): World
    requires Valid(run)
    decreases |run|, 1
  {
    if run == [] then INITIAL_WORLD else Apply(After(run[..|run| - 1]), run[|run| - 1])
  }

  lemma Extend(run: seq<Event>, e: Event)
    requires Valid(run) && Enabled(After(run), e)
    ensures Valid(run + [e]) && After(run + [e]) == Apply(After(run), e)
  {
    assert (run + [e])[..|run|] == run;
  }
}
