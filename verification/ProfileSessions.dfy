/** The supervisor's profile sessions: who may write a profile's snapshot slot, and the
    guard against two sessions on one server. */
module ProfileSessions {
  import opened Options

  // ---- The system ----------------------------------------------------------------------------

  /** Where a session's thread is. `Finished`: every write made, the receiver still
      held. `Unbuilt`, `Broken`: the runtime failed, and completion is signalled before
      the receiver drops. */
  datatype Stage = Begun | Creating | Live | Closing | Finished | Released | Unbuilt | Broken | Done

  datatype Thread = Thread(profile: string, server: string, stage: Stage)

  /** The thread's steps; those that write the slot say so in `Writes`. */
  datatype Step = Reset | NoRuntime | Fail | GiveUp | Up | Refresh | End | LastWrite | Release | Signal | DropReceiver

  datatype Command =
    | Connect(profile: string, server: string)
    | RemoveProfile(id: string)
    | Other            // disconnect, forwards, queries: they only send

  /** The supervisor waits, handles a command, or is sending to a session it has just
      taken out of its map. */
  datatype Hand = Waiting | Handling(cmd: Command) | Removing(thread: nat)

  /** `detached` and `retired` are history: threads taken out by a removal, and profiles
      removed and not connected since. */
  datatype World = World(
    threads: seq<Thread>, sessions: map<string, nat>, slots: set<string>, removers: set<nat>,
    hand: Hand, detached: set<nat>, retired: set<string>)

  const INITIAL_WORLD := World([], map[], {}, {}, Waiting, {}, {})

  datatype Event =
    | Receive(cmd: Command)
    | Handle(spawned: bool)     // whether the operating system gave a thread
    | SpawnRemover
    | Remove(thread: nat)       // a remover saw its session done
    | Act(thread: nat, step: Step)

  predicate Open(stage: Stage) {
    !stage.Released? && !stage.Done?
  }

  predicate MayWrite(stage: Stage) {
    stage.Begun? || stage.Creating? || stage.Live? || stage.Closing?
  }

  predicate CanStep(stage: Stage, step: Step) {
    match step
    case Reset => stage.Begun?
    case NoRuntime => stage.Begun?
    case Fail => stage.Creating?
    case GiveUp => stage.Creating?
    case Up => stage.Creating?
    case Refresh => stage.Live?
    case End => stage.Live?
    case LastWrite => stage.Closing?
    case Release => stage.Finished?
    case Signal => stage.Released? || stage.Unbuilt?
    case DropReceiver => stage.Broken?
  }

  function NextStage(stage: Stage, step: Step): Stage {
    match step
    case Reset => Creating
    case NoRuntime => Unbuilt
    case Fail => Finished
    case GiveUp => Finished
    case Up => Live
    case Refresh => Live
    case End => Closing
    case LastWrite => Finished
    case Release => Released
    case Signal => if stage.Unbuilt? then Broken else Done
    case DropReceiver => Done
  }

  predicate Writes(step: Step) {
    step.Reset? || step.NoRuntime? || step.Fail? || step.Refresh? || step.End? || step.LastWrite?
  }

  predicate Signalled(stage: Stage) {
    stage.Done? || stage.Broken?
  }

  predicate IsOpen(w: World, t: nat) {
    t < |w.threads| && Open(w.threads[t].stage)
  }

  /** A session of another profile holds the server. */
  predicate ServerHeld(w: World, server: string) {
    exists id :: id in w.sessions && w.sessions[id] < |w.threads| && w.threads[w.sessions[id]].server == server
  }

  /** The command starts a session. */
  predicate Accepts(w: World, cmd: Command) {
    cmd.Connect? && cmd.profile !in w.sessions && !ServerHeld(w, cmd.server)
  }

  function Retained(threads: seq<Thread>, sessions: map<string, nat>): map<string, nat> {
    map id | id in sessions && sessions[id] < |threads| && Open(threads[sessions[id]].stage) :: sessions[id]
  }

  predicate Enabled(w: World, e: Event) {
    match e
    case Receive(_) => w.hand.Waiting?
    case Handle(_) => w.hand.Handling?
    case SpawnRemover => w.hand.Removing?
    case Remove(t) => t in w.removers && t < |w.threads| && Signalled(w.threads[t].stage)
    case Act(t, step) => t < |w.threads| && CanStep(w.threads[t].stage, step)
  }

  function Spawned(w: World, cmd: Command): World
    requires cmd.Connect?
  {
    w.(threads := w.threads + [Thread(cmd.profile, cmd.server, Begun)],
       sessions := w.sessions[cmd.profile := |w.threads|], retired := w.retired - {cmd.profile}, hand := Waiting)
  }

  /** A refused or failed connect leaves its reason in the profile's slot, except when
      the profile already runs a session. */
  function Refused(w: World, cmd: Command): World
    requires cmd.Connect?
  {
    if cmd.profile in w.sessions then w.(hand := Waiting)
    else w.(slots := w.slots + {cmd.profile}, retired := w.retired - {cmd.profile}, hand := Waiting)
  }

  function Removed(w: World, id: string): World {
    if id in w.sessions then
      w.(sessions := w.sessions - {id}, detached := w.detached + {w.sessions[id]},
         retired := w.retired + {id}, hand := Removing(w.sessions[id]))
    else
      w.(slots := w.slots - {id}, retired := w.retired + {id}, hand := Waiting)
  }

  function Handled(w: World, cmd: Command, spawned: bool): World {
    match cmd
    case Connect(_, _) => if Accepts(w, cmd) && spawned then Spawned(w, cmd) else Refused(w, cmd)
    case RemoveProfile(id) => Removed(w, id)
    case Other => w.(hand := Waiting)
  }

  function Acted(w: World, t: nat, step: Step): World
    requires t < |w.threads|
  {
    var thread := w.threads[t];
    w.(threads := w.threads[t := thread.(stage := NextStage(thread.stage, step))],
       slots := if Writes(step) then w.slots + {thread.profile} else w.slots)
  }

  function Apply(w: World, e: Event): World
    requires Enabled(w, e)
  {
    match e
    case Receive(cmd) => w.(sessions := Retained(w.threads, w.sessions), hand := Handling(cmd))
    case Handle(spawned) => Handled(w, w.hand.cmd, spawned)
    case SpawnRemover => w.(removers := w.removers + {w.hand.thread}, hand := Waiting)
    case Remove(t) => w.(slots := w.slots - {w.threads[t].profile}, removers := w.removers - {t})
    case Act(t, step) => Acted(w, t, step)
  }

  ghost predicate Valid(run: seq<Event>)
    decreases |run|, 0
  {
    run == [] || (Valid(run[..|run| - 1]) && Enabled(After(run[..|run| - 1]), run[|run| - 1]))
  }

  ghost function After(run: seq<Event>): World
    requires Valid(run)
    decreases |run|, 1
  {
    if run == [] then INITIAL_WORLD else Apply(After(run[..|run| - 1]), run[|run| - 1])
  }

  // ---- The supervisor's map ----------------------------------------------------------------------

  class SessionMap {
    var sessions: map<string, nat>

    constructor ()
      ensures sessions == map[]
    {
      sessions := map[];
    }

    /** Forget the sessions whose channel reads closed. */
    method Sweep(threads: seq<Thread>)
      modifies this
      ensures sessions == Retained(threads, old(sessions))
    {
      ghost var before := sessions;
      ghost var done: set<string> := {};
      var ids := sessions.Keys;
      while ids != {}
        invariant ids + done == before.Keys && ids !! done
        invariant sessions == map id | id in before && (id !in done || id in Retained(threads, before)) :: before[id]
        decreases ids
      {
        var id :| id in ids;
        ids := ids - {id};
        var t := sessions[id];
        if !(t < |threads| && Open(threads[t].stage)) {
          sessions := sessions - {id};
        }
        done := done + {id};
      }
    }

    /** The decision a connect gets: refused for its own session or another's server. */
    method Admits(threads: seq<Thread>, cmd: Command) returns (ok: bool)
      requires cmd.Connect?
      ensures ok <==> cmd.profile !in sessions
                      && !exists id :: id in sessions && sessions[id] < |threads| && threads[sessions[id]].server == cmd.server
    {
      if cmd.profile in sessions {
        return false;
      }
      var ids := sessions.Keys;
      while ids != {}
        invariant ids <= sessions.Keys
        invariant forall id :: id in sessions && id !in ids ==>
                                 !(sessions[id] < |threads| && threads[sessions[id]].server == cmd.server)
        decreases ids
      {
        var id :| id in ids;
        if sessions[id] < |threads| && threads[sessions[id]].server == cmd.server {
          return false;
        }
        ids := ids - {id};
      }
      return true;
    }

    method TakeOut(id: string) returns (thread: Option<nat>)
      modifies this
      ensures sessions == old(sessions) - {id}
      ensures thread == if id in old(sessions) then Some(old(sessions)[id]) else None
    {
      if id !in sessions {
        return None;
      }
      thread := Some(sessions[id]);
      sessions := sessions - {id};
    }

    /** A command's effect on the map, and the session a removal takes out to wait for:
        those of the transition system. */
    method Handle(ghost w: World, threads: seq<Thread>, cmd: Command, spawned: bool) returns (removing: Option<nat>)
      requires w.threads == threads && w.sessions == sessions
      modifies this
      ensures var v := Handled(w, cmd, spawned);
              sessions == v.sessions && v.hand == if removing.Some? then Removing(removing.value) else Waiting
    {
      removing := None;
      match cmd
      case Connect(profile, _) =>
        var ok := Admits(threads, cmd);
        if ok && spawned {
          sessions := sessions[profile := |threads|];
        }
      case RemoveProfile(id) =>
        removing := TakeOut(id);
      case Other =>
    }
  }

  // ---- The invariant ---------------------------------------------------------------------------

  predicate Attached(w: World, t: nat) {
    t < |w.threads| && w.threads[t].profile in w.sessions && w.sessions[w.threads[t].profile] == t
  }

  predicate PendingRemoval(w: World, t: nat) {
    t in w.removers || w.hand == Removing(t)
  }

  /** The map's handles are to threads of their profiles, on different servers. */
  ghost predicate MapOk(w: World) {
    && (forall id :: id in w.sessions ==> w.sessions[id] < |w.threads| && w.threads[w.sessions[id]].profile == id)
    && (forall a, b :: a in w.sessions && b in w.sessions && a != b ==>
          w.threads[w.sessions[a]].server != w.threads[w.sessions[b]].server)
  }

  /** Every open session is in the map or was taken out by a removal, and one that may
      still write is then waited for. */
  ghost predicate ThreadsOk(w: World) {
    forall t :: 0 <= t < |w.threads| && Open(w.threads[t].stage) ==>
                  || Attached(w, t)
                  || (t in w.detached && (MayWrite(w.threads[t].stage) ==> PendingRemoval(w, t)))
  }

  ghost predicate AwaitsRemoval(w: World, id: string) {
    exists t :: 0 <= t < |w.threads| && w.threads[t].profile == id && PendingRemoval(w, t)
  }

  /** A removed profile has no session in the map, and a slot only while a removal is
      waiting for its session to end. */
  ghost predicate SlotsOk(w: World) {
    forall id :: id in w.retired ==> id !in w.sessions && (id in w.slots ==> AwaitsRemoval(w, id))
  }

  ghost predicate Inv(w: World) {
    && MapOk(w) && ThreadsOk(w) && SlotsOk(w)
    && (forall t :: t in w.detached || t in w.removers ==> t < |w.threads|)
    && (w.hand.Removing? ==> w.hand.thread < |w.threads|)
  }

  lemma AwaitsStill(w: World, v: World, id: string)
    requires AwaitsRemoval(w, id) && |w.threads| <= |v.threads|
    requires forall t :: 0 <= t < |w.threads| ==> v.threads[t].profile == w.threads[t].profile
    requires forall t: nat :: PendingRemoval(w, t) && t < |w.threads| && w.threads[t].profile == id ==> PendingRemoval(v, t)
    ensures AwaitsRemoval(v, id)
  {
    var t :| 0 <= t < |w.threads| && w.threads[t].profile == id && PendingRemoval(w, t);
    assert PendingRemoval(v, t);
  }

  lemma ReceiveKeeps(w: World, e: Event)
    requires Inv(w) && Enabled(w, e) && e.Receive?
    ensures Inv(Apply(w, e))
  {
    var v := Apply(w, e);
    forall t | 0 <= t < |v.threads| && Open(v.threads[t].stage) && Attached(w, t) ensures Attached(v, t) {
      assert IsOpen(w, t);
    }
    forall id | AwaitsRemoval(w, id) ensures AwaitsRemoval(v, id) {
      AwaitsStill(w, v, id);
    }
  }

  lemma ConnectKeeps(w: World, cmd: Command, spawned: bool)
    requires Inv(w) && w.hand == Handling(cmd) && cmd.Connect?
    ensures Inv(Handled(w, cmd, spawned))
  {
    var v := Handled(w, cmd, spawned);
    forall id | AwaitsRemoval(w, id) ensures AwaitsRemoval(v, id) {
      AwaitsStill(w, v, id);
    }
    forall t | 0 <= t < |w.threads| && Attached(w, t) ensures Attached(v, t) {
    }
  }

  lemma RemoveProfileKeeps(w: World, id: string)
    requires Inv(w) && w.hand == Handling(RemoveProfile(id))
    ensures Inv(Removed(w, id))
  {
    var v := Removed(w, id);
    forall other | AwaitsRemoval(w, other) ensures AwaitsRemoval(v, other) {
      AwaitsStill(w, v, other);
    }
    if id in w.sessions {
      assert PendingRemoval(v, w.sessions[id]) && v.threads[w.sessions[id]].profile == id;
      assert AwaitsRemoval(v, id);
    }
  }

  lemma RemoverKeeps(w: World, e: Event)
    requires Inv(w) && Enabled(w, e) && e.SpawnRemover?
    ensures Inv(Apply(w, e))
  {
    var v := Apply(w, e);
    assert forall t :: PendingRemoval(w, t) ==> PendingRemoval(v, t);
    forall id | AwaitsRemoval(w, id) ensures AwaitsRemoval(v, id) {
      AwaitsStill(w, v, id);
    }
  }

  lemma RemoveKeeps(w: World, e: Event)
    requires Inv(w) && Enabled(w, e) && e.Remove?
    ensures Inv(Apply(w, e))
  {
    var v := Apply(w, e);
    forall id | id in v.slots && AwaitsRemoval(w, id) ensures AwaitsRemoval(v, id) {
      AwaitsStill(w, v, id);
    }
  }

  lemma ActKeeps(w: World, t: nat, step: Step)
    requires Inv(w) && Enabled(w, Act(t, step))
    ensures Inv(Acted(w, t, step))
  {
    var v := Acted(w, t, step);
    forall id | AwaitsRemoval(w, id) ensures AwaitsRemoval(v, id) {
      AwaitsStill(w, v, id);
    }
    forall s | 0 <= s < |v.threads| && Attached(w, s) ensures Attached(v, s) {
    }
    if Writes(step) && w.threads[t].profile in w.retired {
      assert PendingRemoval(w, t);
      assert PendingRemoval(v, t) && v.threads[t].profile == w.threads[t].profile;
      assert AwaitsRemoval(v, w.threads[t].profile);
    }
  }

  lemma HandleKeeps(w: World, spawned: bool)
    requires Inv(w) && w.hand.Handling?
    ensures Inv(Handled(w, w.hand.cmd, spawned))
  {
    match w.hand.cmd
    case Connect(_, _) => ConnectKeeps(w, w.hand.cmd, spawned);
    case RemoveProfile(id) => RemoveProfileKeeps(w, id);
    case Other =>
      forall id | AwaitsRemoval(w, id) ensures AwaitsRemoval(w.(hand := Waiting), id) {
        AwaitsStill(w, w.(hand := Waiting), id);
      }
  }

  lemma StepKeeps(w: World, e: Event)
    requires Inv(w) && Enabled(w, e)
    ensures Inv(Apply(w, e))
  {
    match e
    case Receive(_) => ReceiveKeeps(w, e);
    case Handle(spawned) => HandleKeeps(w, spawned);
    case SpawnRemover => RemoverKeeps(w, e);
    case Remove(_) => RemoveKeeps(w, e);
    case Act(t, step) => ActKeeps(w, t, step);
  }

  lemma {:induction false} RunKeepsInv(run: seq<Event>)
    requires Valid(run)
    ensures Inv(After(run))
  {
    if run != [] {
      RunKeepsInv(run[..|run| - 1]);
      StepKeeps(After(run[..|run| - 1]), run[|run| - 1]);
    }
  }

  // ---- Slots -----------------------------------------------------------------------------------

  predicate WritesSlot(e: Event, t: nat) {
    e.Act? && e.thread == t && Writes(e.step)
  }

  lemma ClosedStays(w: World, e: Event, t: nat)
    requires Enabled(w, e) && t < |w.threads| && !IsOpen(w, t)
    ensures t < |Apply(w, e).threads| && !IsOpen(Apply(w, e), t) && !WritesSlot(e, t)
  {
    OldThreadsOnlyClose(w, e, t);
  }

  ghost predicate ClosedAt(run: seq<Event>, t: nat)
    requires Valid(run)
  {
    t < |After(run).threads| && !IsOpen(After(run), t)
  }

  lemma ClosedStep(run: seq<Event>, t: nat)
    requires run != [] && Valid(run) && ClosedAt(run[..|run| - 1], t)
    ensures ClosedAt(run, t) && !WritesSlot(run[|run| - 1], t)
  {
    ClosedStays(After(run[..|run| - 1]), run[|run| - 1], t);
  }

  /** Once a session's channel reads closed it never opens or writes again, however the
      run goes on. */
  lemma {:induction false} ClosedWritesNothing(run: seq<Event>, k: nat, t: nat)
    requires Valid(run) && k <= |run| && Valid(run[..k]) && ClosedAt(run[..k], t)
    ensures ClosedAt(run, t) && forall j :: k <= j < |run| ==> !WritesSlot(run[j], t)
    decreases |run|
  {
    if k == |run| {
      assert run[..k] == run;
    } else {
      var shorter := run[..|run| - 1];
      assert shorter[..k] == run[..k];
      ClosedWritesNothing(shorter, k, t);
      ClosedStep(run, t);
      assert forall j :: k <= j < |run| - 1 ==> run[j] == shorter[j];
    }
  }

  /** Once a profile is removed, and until it is connected again, it has a slot only
      while a removal waits for its session: the final writes do not bring it back. */
  lemma RemovedSlotsGo(run: seq<Event>, id: string)
    requires Valid(run) && id in After(run).retired && !AwaitsRemoval(After(run), id)
    ensures id !in After(run).slots && id !in After(run).sessions
  {
    RunKeepsInv(run);
  }

  // ---- One session per server --------------------------------------------------------------------

  /** Two open sessions on one server. */
  predicate Doubled(w: World) {
    exists t, u :: 0 <= t < u < |w.threads| && IsOpen(w, t) && IsOpen(w, u) && w.threads[t].server == w.threads[u].server
  }

  /** The supervisor is starting a session on the server of one it removed and that
      has not ended. */
  predicate Bypasses(w: World, e: Event) {
    && e == Handle(true) && w.hand.Handling? && Accepts(w, w.hand.cmd)
    && exists t :: t in w.detached && IsOpen(w, t) && w.threads[t].server == w.hand.cmd.server
  }

  lemma BypassDoubles(w: World, e: Event)
    requires Enabled(w, e) && Bypasses(w, e)
    ensures Doubled(Apply(w, e))
  {
    var t: nat :| t in w.detached && IsOpen(w, t) && w.threads[t].server == w.hand.cmd.server;
    var v, u := Apply(w, e), |w.threads|;
    assert IsOpen(v, t) && IsOpen(v, u) && v.threads[t].server == v.threads[u].server;
  }

  lemma OldThreadsOnlyClose(w: World, e: Event, t: nat)
    requires Enabled(w, e) && t < |w.threads|
    ensures t < |Apply(w, e).threads| && Apply(w, e).threads[t].server == w.threads[t].server
    ensures IsOpen(Apply(w, e), t) ==> IsOpen(w, t)
  {
  }

  /** A step brings two sessions to one server exactly when it bypasses the guard so. */
  lemma StepDoubles(w: World, e: Event)
    requires Inv(w) && Enabled(w, e) && !Doubled(w)
    ensures Doubled(Apply(w, e)) <==> Bypasses(w, e)
  {
    var v := Apply(w, e);
    if Bypasses(w, e) {
      BypassDoubles(w, e);
    }
    if Doubled(v) {
      var t: nat, u: nat :| t < u < |v.threads| && IsOpen(v, t) && IsOpen(v, u) && v.threads[t].server == v.threads[u].server;
      assert u <= |w.threads|;
      OldThreadsOnlyClose(w, e, t);
      if u < |w.threads| {
        OldThreadsOnlyClose(w, e, u);
      } else {
        assert !Attached(w, t);
      }
    }
  }

  ghost predicate EverDoubled(run: seq<Event>)
    requires Valid(run)
  {
    Doubled(After(run)) || (run != [] && EverDoubled(run[..|run| - 1]))
  }

  ghost predicate EverBypassed(run: seq<Event>)
    requires Valid(run)
  {
    run != [] && (Bypasses(After(run[..|run| - 1]), run[|run| - 1]) || EverBypassed(run[..|run| - 1]))
  }

  /** In a whole run two sessions are open on one server at some point if and only if a
      connect was accepted for the server of a removed session that had not ended. */
  lemma {:induction false} DoubledExactly(run: seq<Event>)
    requires Valid(run)
    ensures EverDoubled(run) <==> EverBypassed(run)
  {
    if run != [] {
      var shorter := run[..|run| - 1];
      DoubledExactly(shorter);
      RunKeepsInv(shorter);
      if !EverDoubled(shorter) {
        NotDoubled(shorter);
        StepDoubles(After(shorter), run[|run| - 1]);
      }
    }
  }

  lemma NotDoubled(run: seq<Event>)
    requires Valid(run) && !EverDoubled(run)
    ensures !Doubled(After(run))
  {
  }

  lemma Push(run: seq<Event>, e: Event) returns (longer: seq<Event>)
    requires Valid(run) && Enabled(After(run), e)
    ensures longer == run + [e] && Valid(longer) && After(longer) == Apply(After(run), e)
  {
    longer := run + [e];
    assert longer[..|run|] == run;
  }

  lemma ConnectThenRemove(first: string, server: string) returns (run: seq<Event>)
    ensures Valid(run)
    ensures After(run) == World([Thread(first, server, Begun)], map[], {}, {}, Removing(0), {0}, {first})
  {
    run := [];
    run := Push(run, Receive(Connect(first, server)));
    run := Push(run, Handle(true));
    assert After(run) == World([Thread(first, server, Begun)], map[first := 0], {}, {}, Waiting, {}, {});
    run := Push(run, Receive(RemoveProfile(first)));
    assert After(run).sessions == map[first := 0];
    run := Push(run, Handle(true));
  }

  /** Removing a connected profile and at once connecting another for its server. */
  lemma GuardBypassed(first: string, second: string, server: string) returns (run: seq<Event>)
    requires first != second
    ensures Valid(run) && Doubled(After(run))
  {
    run := ConnectThenRemove(first, server);
    run := Push(run, SpawnRemover);
    run := Push(run, Receive(Connect(second, server)));
    assert After(run).sessions == map[] && !ServerHeld(After(run), server);
    run := Push(run, Handle(true));
    var w := After(run);
    assert IsOpen(w, 0) && IsOpen(w, 1) && w.threads[0].server == w.threads[1].server;
  }

  // ---- A live session without its slot ------------------------------------------------------------

  /** A session in the map that has made its first write and may make more. */
  predicate Underway(w: World, t: nat) {
    Attached(w, t) && MayWrite(w.threads[t].stage) && !w.threads[t].stage.Begun?
  }

  predicate Slotless(w: World, t: nat) {
    Underway(w, t) && w.threads[t].profile !in w.slots
  }

  /** A connect is accepted for a profile whose removal still waits for its last session. */
  ghost predicate EarlyReconnect(w: World, e: Event) {
    e == Handle(true) && w.hand.Handling? && Accepts(w, w.hand.cmd) && AwaitsRemoval(w, w.hand.cmd.profile)
  }

  ghost predicate NoEarlyReconnect(run: seq<Event>)
    requires Valid(run)
  {
    run == [] || (NoEarlyReconnect(run[..|run| - 1]) && !EarlyReconnect(After(run[..|run| - 1]), run[|run| - 1]))
  }

  /** No removal waits beside a session in the map, and live sessions have their slots. */
  ghost predicate SlotsKept(w: World) {
    && (forall id :: id in w.sessions ==> !AwaitsRemoval(w, id))
    && (forall t :: 0 <= t < |w.threads| ==> !Slotless(w, t))
  }

  /** Removals only ever come from taking a session out of the map. */
  lemma AwaitsBack(w: World, e: Event, id: string)
    requires Inv(w) && Enabled(w, e) && AwaitsRemoval(Apply(w, e), id)
    ensures AwaitsRemoval(w, id) || (e.Handle? && w.hand == Handling(RemoveProfile(id)))
  {
    var v := Apply(w, e);
    var t: nat :| t < |v.threads| && v.threads[t].profile == id && PendingRemoval(v, t);
    if PendingRemoval(w, t) {
      assert t < |w.threads| && w.threads[t].profile == id;
    }
  }

  lemma SessionsBack(w: World, e: Event, id: string)
    requires Inv(w) && Enabled(w, e) && id in Apply(w, e).sessions
    ensures id in w.sessions || (e == Handle(true) && w.hand.Handling? && Accepts(w, w.hand.cmd) && w.hand.cmd.profile == id)
    ensures !(e.Handle? && w.hand == Handling(RemoveProfile(id)))
  {
  }

  lemma NoRemovalBeside(w: World, e: Event, id: string)
    requires Inv(w) && SlotsKept(w) && Enabled(w, e) && !EarlyReconnect(w, e) && id in Apply(w, e).sessions
    ensures !AwaitsRemoval(Apply(w, e), id)
  {
    SessionsBack(w, e, id);
    if AwaitsRemoval(Apply(w, e), id) {
      AwaitsBack(w, e, id);
    }
  }

  lemma LiveKeepsSlot(w: World, e: Event, t: nat)
    requires Inv(w) && SlotsKept(w) && Enabled(w, e) && t < |Apply(w, e).threads|
    ensures !Slotless(Apply(w, e), t)
  {
    if e.Remove? {
      assert PendingRemoval(w, e.thread);
      assert AwaitsRemoval(w, w.threads[e.thread].profile);
    }
    if t < |w.threads| {
      assert !Slotless(w, t);
    }
  }

  lemma SlotsKeptStep(w: World, e: Event)
    requires Inv(w) && SlotsKept(w) && Enabled(w, e) && !EarlyReconnect(w, e)
    ensures SlotsKept(Apply(w, e))
  {
    forall id | id in Apply(w, e).sessions ensures !AwaitsRemoval(Apply(w, e), id) {
      NoRemovalBeside(w, e, id);
    }
    forall t | 0 <= t < |Apply(w, e).threads| ensures !Slotless(Apply(w, e), t) {
      LiveKeepsSlot(w, e, t);
    }
  }

  /** As long as no profile is connected again before its removal is done, every live
      session has its slot, in every run. */
  lemma {:induction false} LiveSessionsHaveSlots(run: seq<Event>)
    requires Valid(run) && NoEarlyReconnect(run)
    ensures SlotsKept(After(run))
  {
    if run != [] {
      var shorter := run[..|run| - 1];
      LiveSessionsHaveSlots(shorter);
      RunKeepsInv(shorter);
      SlotsKeptStep(After(shorter), run[|run| - 1]);
    }
  }

  // ---- ... and after an early reconnect --------------------------------------------------------------

  function Left(stage: Stage): nat {
    match stage
    case Begun => 2
    case Creating => 4
    case Live => 5
    case Closing => 4
    case Finished => 3
    case Released => 2
    case Unbuilt => 1
    case Broken => 0
    case Done => 0
  }

  /** A step that brings the thread closer to its completion. */
  function NextStep(stage: Stage): (step: Step)
    requires !Signalled(stage)
    ensures CanStep(stage, step) && Left(NextStage(stage, step)) < Left(stage)
  {
    match stage
    case Begun => NoRuntime
    case Creating => GiveUp
    case Live => End
    case Closing => LastWrite
    case Finished => Release
    case Released => Signal
    case Unbuilt => Signal
  }

  /** Nothing but one thread and the slots differs. */
  predicate OnlyThread(w: World, v: World, u: nat) {
    && v.sessions == w.sessions && v.removers == w.removers && v.hand == w.hand
    && |v.threads| == |w.threads| && (forall t :: 0 <= t < |w.threads| && t != u ==> v.threads[t] == w.threads[t])
    && (u < |w.threads| ==> v.threads[u].profile == w.threads[u].profile)
  }

  lemma {:induction false} Complete(run: seq<Event>, u: nat) returns (longer: seq<Event>)
    requires Valid(run) && u < |After(run).threads|
    ensures run <= longer && Valid(longer) && OnlyThread(After(run), After(longer), u)
    ensures Signalled(After(longer).threads[u].stage)
    decreases Left(After(run).threads[u].stage)
  {
    var stage := After(run).threads[u].stage;
    longer := run;
    if !Signalled(stage) {
      longer := Push(run, Act(u, NextStep(stage)));
      longer := Complete(longer, u);
    }
  }

  /** The condition is exact: after any early reconnect the waiting removal can delete the
      slot of the live session. */
  lemma EarlyReconnectLosesSlot(run: seq<Event>) returns (longer: seq<Event>, t: nat)
    requires Valid(run) && EarlyReconnect(After(run), Handle(true))
    ensures run + [Handle(true)] <= longer && Valid(longer) && Slotless(After(longer), t)
  {
    var w := After(run);
    RunKeepsInv(run);
    var u: nat :| u < |w.threads| && w.threads[u].profile == w.hand.cmd.profile && PendingRemoval(w, u);
    t := |w.threads|;
    longer := Push(run, Handle(true));
    longer := Push(longer, Act(t, Reset));
    var mid := After(longer);
    longer := Complete(longer, u);
    var before := After(longer);
    assert before.threads[t] == mid.threads[t] && before.sessions == mid.sessions && u in before.removers;
    longer := Push(longer, Remove(u));
  }

  /** A profile removed and connected again at once. */
  lemma ReconnectAtOnce(profile: string, server: string) returns (run: seq<Event>)
    ensures Valid(run) && EarlyReconnect(After(run), Handle(true))
    ensures var w := After(run);
            w.hand == Handling(Connect(profile, server)) && w.threads == [Thread(profile, server, Begun)] && Accepts(w, w.hand.cmd)
  {
    run := ConnectThenRemove(profile, server);
    run := Push(run, SpawnRemover);
    run := Push(run, Receive(Connect(profile, server)));
    var w := After(run);
    assert w.sessions == map[] && !ServerHeld(w, server);
    assert PendingRemoval(w, 0) && AwaitsRemoval(w, profile);
  }

  /** Its new session can be left live without a slot. */
  lemma SlotLost(profile: string, server: string) returns (run: seq<Event>, t: nat)
    ensures Valid(run) && Slotless(After(run), t)
  {
    run := ReconnectAtOnce(profile, server);
    run, t := EarlyReconnectLosesSlot(run);
  }

  // ---- Two writers of one slot ---------------------------------------------------------------------

  /** Two sessions may write one profile's slot. */
  predicate Shared(w: World) {
    exists t, u :: 0 <= t < u < |w.threads| && MayWrite(w.threads[t].stage) && MayWrite(w.threads[u].stage)
                   && w.threads[t].profile == w.threads[u].profile
  }

  predicate WritesFor(w: World, t: nat, profile: string) {
    t < |w.threads| && MayWrite(w.threads[t].stage) && w.threads[t].profile == profile
  }

  /** A connect is accepted for a profile whose removed session may still write. */
  predicate Rejoins(w: World, e: Event) {
    && e == Handle(true) && w.hand.Handling? && Accepts(w, w.hand.cmd)
    && exists t :: t in w.detached && WritesFor(w, t, w.hand.cmd.profile)
  }

  lemma RejoinShares(w: World, e: Event)
    requires Enabled(w, e) && Rejoins(w, e)
    ensures Shared(Apply(w, e))
  {
    var t: nat :| t in w.detached && WritesFor(w, t, w.hand.cmd.profile);
    var v, u := Apply(w, e), |w.threads|;
    assert MayWrite(v.threads[t].stage) && MayWrite(v.threads[u].stage) && v.threads[t].profile == v.threads[u].profile;
  }

  lemma OldThreadsOnlyQuiet(w: World, e: Event, t: nat)
    requires Enabled(w, e) && t < |w.threads|
    ensures t < |Apply(w, e).threads| && Apply(w, e).threads[t].profile == w.threads[t].profile
    ensures MayWrite(Apply(w, e).threads[t].stage) ==> MayWrite(w.threads[t].stage)
  {
  }

  /** A step gives a slot its second writer exactly when it rejoins so. */
  lemma StepShares(w: World, e: Event)
    requires Inv(w) && Enabled(w, e) && !Shared(w)
    ensures Shared(Apply(w, e)) <==> Rejoins(w, e)
  {
    var v := Apply(w, e);
    if Rejoins(w, e) {
      RejoinShares(w, e);
    }
    if Shared(v) {
      var t: nat, u: nat :| t < u < |v.threads| && MayWrite(v.threads[t].stage) && MayWrite(v.threads[u].stage)
                            && v.threads[t].profile == v.threads[u].profile;
      assert u <= |w.threads|;
      OldThreadsOnlyQuiet(w, e, t);
      if u < |w.threads| {
        OldThreadsOnlyQuiet(w, e, u);
      } else {
        assert !Attached(w, t);
        assert t in w.detached && WritesFor(w, t, w.hand.cmd.profile);
      }
    }
  }

  ghost predicate EverShared(run: seq<Event>)
    requires Valid(run)
  {
    Shared(After(run)) || (run != [] && EverShared(run[..|run| - 1]))
  }

  ghost predicate EverRejoined(run: seq<Event>)
    requires Valid(run)
  {
    run != [] && (Rejoins(After(run[..|run| - 1]), run[|run| - 1]) || EverRejoined(run[..|run| - 1]))
  }

  lemma NotShared(run: seq<Event>)
    requires Valid(run) && !EverShared(run)
    ensures !Shared(After(run))
  {
  }

  /** In a whole run two sessions may write one slot at some point if and only if a
      profile was connected again while its removed session could still write. */
  lemma {:induction false} SharedExactly(run: seq<Event>)
    requires Valid(run)
    ensures EverShared(run) <==> EverRejoined(run)
  {
    if run != [] {
      var shorter := run[..|run| - 1];
      SharedExactly(shorter);
      RunKeepsInv(shorter);
      if !EverShared(shorter) {
        NotShared(shorter);
        StepShares(After(shorter), run[|run| - 1]);
      }
    }
  }

  /** So a slot has one writer in every run without such a connect; and of two, one was
      removed. */
  lemma OneWriterPerSlot(run: seq<Event>, t: nat, u: nat)
    requires Valid(run) && t < |After(run).threads| && u < |After(run).threads| && t != u
    requires After(run).threads[t].profile == After(run).threads[u].profile
    requires MayWrite(After(run).threads[t].stage) && MayWrite(After(run).threads[u].stage)
    ensures t in After(run).detached || u in After(run).detached
    ensures EverRejoined(run)
  {
    RunKeepsInv(run);
    var w := After(run);
    var a, b := if t < u then t else u, if t < u then u else t;
    assert MayWrite(w.threads[a].stage) && MayWrite(w.threads[b].stage) && w.threads[a].profile == w.threads[b].profile;
    assert Shared(w);
    SharedExactly(run);
  }

  /** Such a connect is an early reconnect; one whose old session has made its last write
      is early and gives no second writer. */
  lemma RejoinIsEarly(w: World, e: Event)
    requires Inv(w) && Enabled(w, e)
    ensures Rejoins(w, e) ==> EarlyReconnect(w, e)
  {
    if Rejoins(w, e) {
      var t: nat :| t in w.detached && WritesFor(w, t, w.hand.cmd.profile);
      assert !Attached(w, t) && PendingRemoval(w, t);
    }
  }

  /** A profile removed and connected again at once has two writers. */
  lemma TwoWriters(profile: string, server: string) returns (run: seq<Event>)
    ensures Valid(run) && Shared(After(run))
    ensures var w := After(run);
            && |w.threads| == 2 && w.threads[0].profile == w.threads[1].profile == profile
            && MayWrite(w.threads[0].stage) && MayWrite(w.threads[1].stage)
  {
    run := ReconnectAtOnce(profile, server);
    run := Push(run, Handle(true));
    var w := After(run);
    assert MayWrite(w.threads[0].stage) && MayWrite(w.threads[1].stage) && w.threads[0].profile == w.threads[1].profile;
  }
}
