/** What a server session is told, and in what order it hears it: its channel holds the
    commands sent to it, oldest first, and it acts on the first. */
module SupervisorCommands {
  import opened Options
  import opened Records
  import opened ServerSession
  import opened Supervisor
  import opened SupervisorSafety

  /** What handling the command says to session `i`, if it is the loop's and can hear it. */
  function Message(w: World, e: Event, i: nat): Option<ServerCmd> {
    if !(e.HandleCommand? && w.locals.server.Some? && w.locals.server.value.session == i
         && i < |w.sessions| && w.sessions[i].Open()) then None
    else
      match e.cmd
      case StopServer => Some(CmdStop)
      case RestartServer(_) => if w.locals.stopping then None else Some(CmdStop)
      case RemoveServer => Some(CmdRemove)
      case Shutdown => Some(CmdShutdown)
      case _ => None
  }

  ghost function Told(run: seq<Event>, i: nat): seq<ServerCmd>
    requires Valid(run)
  {
    if run == [] then []
    else
      var before, m := Told(run[..|run| - 1], i), Message(After(run[..|run| - 1]), run[|run| - 1], i);
      if m.Some? then before + [m.value] else before
  }

  /** The channel holds what the session was told, less the one command it took. */
  predicate Hears(s: Session, told: seq<ServerCmd>) {
    match s.stage
    case Closed => true
    case BindAbandoned(Some(cmd)) => told != [] && cmd == told[0] && s.queue == told[1..]
    case Closing(Some(cmd), _) => told != [] && cmd == told[0] && s.queue == told[1..]
    case BindAbandoned(None) => s.queue == told
    case Closing(None, _) => s.queue == told
    case Finished => s.queue == told || (told != [] && s.queue == told[1..])
    case Unlocked => s.queue == told || (told != [] && s.queue == told[1..])
    case _ => s.queue == told
  }

  lemma ActHears(s: Session, act: Act, gone: bool, told: seq<ServerCmd>)
    requires CanAct(s, act, gone) && Hears(s, told)
    ensures Hears(ActThread(s, act, gone), told)
  {
  }

  lemma SendHears(s: Session, cmd: ServerCmd, told: seq<ServerCmd>)
    requires Hears(s, told) && s.Open()
    ensures Hears(s.(queue := s.queue + [cmd]), told + [cmd])
  {
    if told != [] {
      assert (told + [cmd])[1..] == told[1..] + [cmd];
    }
  }

  /** A handled command adds its message to the channel of an old session, and nothing
      else happens to it. */
  lemma HandleHears(w: World, e: Event, i: nat)
    requires Inv(w) && Enabled(w, e) && e.HandleCommand? && i < |w.sessions|
    ensures var s, m := w.sessions[i], Message(w, e, i);
            Apply(w, e).sessions[i] == if m.Some? then s.(queue := s.queue + [m.value]) else s
  {
  }

  lemma OldHears(w: World, e: Event, i: nat, told: seq<ServerCmd>)
    requires Inv(w) && Enabled(w, e) && i < |w.sessions| && Hears(w.sessions[i], told)
    ensures i < |Apply(w, e).sessions|
    ensures Hears(Apply(w, e).sessions[i], if Message(w, e, i).Some? then told + [Message(w, e, i).value] else told)
  {
    match e
    case HandleCommand(_, _, _) =>
      HandleHears(w, e, i);
      if Message(w, e, i).Some? {
        SendHears(w.sessions[i], Message(w, e, i).value, told);
      }
    case SessionStep(j, act) =>
      if i == j {
        ActHears(w.sessions[i], act, w.point.Gone?, told);
      }
    case _ =>
  }

  lemma {:induction false} NothingToldYet(run: seq<Event>, i: nat)
    requires Valid(run) && i >= |After(run).sessions|
    ensures Told(run, i) == []
  {
    if run != [] {
      var before := run[..|run| - 1];
      NoFewer(After(before), run[|run| - 1]);
      NothingToldYet(before, i);
    }
  }

  lemma NoFewer(w: World, e: Event)
    requires Enabled(w, e)
    ensures |w.sessions| <= |Apply(w, e).sessions| <= |w.sessions| + 1
    ensures |Apply(w, e).sessions| == |w.sessions| + 1 ==>
              Apply(w, e).sessions[|w.sessions|].queue == [] && Apply(w, e).sessions[|w.sessions|].stage.Launched?
  {
  }

  /** In every run each session's channel holds what it was told, in order, and the
      command it acts on is the first. */
  lemma {:induction false} CommandsArriveInOrder(run: seq<Event>, i: nat)
    requires Valid(run) && i < |After(run).sessions|
    ensures Hears(After(run).sessions[i], Told(run, i))
  {
    var before, e := run[..|run| - 1], run[|run| - 1];
    NoFewer(After(before), e);
    RunKeepsInv(before);
    if i < |After(before).sessions| {
      CommandsArriveInOrder(before, i);
      OldHears(After(before), e, i, Told(before, i));
    } else {
      NothingToldYet(before, i);
    }
  }

  // ---- The stages in order -----------------------------------------------------------------------

  /** Where a session can go from a stage: through validation, lock and bind to serving and
      closing, giving up on a fault before it serves, and out in the order lock, receiver;
      a session without a runtime signals before it drops its receiver. */
  predicate Follows(a: Stage, b: Stage) {
    match a
    case Launched => b.Validating? || b.RuntimeFailed?
    case Validating => b.Locked? || b.Finished?
    case Locked => b.Binding? || b.Finished?
    case Binding => b.Serving? || b.BindAbandoned? || b.Finished?
    case BindAbandoned(_) => b.Finished?
    case Serving => b.Serving? || b.Closing?
    case Closing(_, _) => b.Finished?
    case Finished => b.Unlocked?
    case Unlocked => b.Closed?
    case RuntimeFailed => b.RuntimeDone?
    case RuntimeDone => b.Closed?
    case Closed => b.Closed?
  }

  lemma StagesInOrder(s: Session, act: Act, gone: bool)
    requires CanAct(s, act, gone)
    ensures Follows(s.stage, ActThread(s, act, gone).stage)
    ensures ActThread(s, act, gone).config == s.config
    ensures ActThread(s, act, gone).done <==> s.done || act.SendDone? || act.SendDoneEarly?
  {
  }
}
