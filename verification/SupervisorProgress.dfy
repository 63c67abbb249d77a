/** Bounds over every continuation: how many steps a session can take before it has
    ended, and how long a waiting send or a pending start can wait on it. Only the polls
    of a serving session are not counted. */
module SupervisorProgress {
  import opened Options
  import opened Records
  import opened ServerSession
  import opened Supervisor
  import opened SupervisorSafety
  import opened SupervisorRuns

  // ---- Sessions end ----------------------------------------------------------------------------

  /** Any step of an open session other than a poll brings its end closer. */
  lemma StepLowersRank(s: Session, act: Act, senderGone: bool)
    requires CanAct(s, act, senderGone) && s.Open() && !act.PollClients?
    ensures Rank(ActThread(s, act, senderGone).stage) < Rank(s.stage)
  {
  }

  predicate Counts(e: Event, i: nat) {
    e.SessionStep? && e.session == i && !e.act.PollClients? && !e.act.SendDone?
  }

  /** The session's own steps in the run, but for polls and its completion. */
  function Steps(run: seq<Event>, i: nat): nat {
    if run == [] then 0 else Steps(run[..|run| - 1], i) + (if Counts(run[|run| - 1], i) then 1 else 0)
  }

  lemma StepsAfterOne(w: World, e: Event, i: nat)
    requires Enabled(w, e) && i < |w.sessions|
    ensures i < |Apply(w, e).sessions|
    ensures Rank(Apply(w, e).sessions[i].stage) + (if Counts(e, i) then 1 else 0) <= Rank(w.sessions[i].stage)
  {
    if Counts(e, i) {
      StepLowersRank(w.sessions[i], e.act, w.point.Gone?);
    }
  }

  lemma NewSessionsStart(w: World, e: Event, i: nat)
    requires Enabled(w, e) && |w.sessions| <= i < |Apply(w, e).sessions|
    ensures Apply(w, e).sessions[i].stage.Launched? && !Counts(e, i)
  {
  }

  /** In every run, whatever interleaves, a session takes at most eight steps before its
      receiver drops. */
  lemma {:induction false} SessionsEnd(run: seq<Event>, i: nat)
    requires Valid(run)
    ensures i < |After(run).sessions| ==> Steps(run, i) + Rank(After(run).sessions[i].stage) <= 8
    ensures i >= |After(run).sessions| ==> Steps(run, i) == 0
  {
    if run != [] {
      var shorter, e := run[..|run| - 1], run[|run| - 1];
      SessionsEnd(shorter, i);
      if i < |After(shorter).sessions| {
        StepsAfterOne(After(shorter), e, i);
      } else if i < |After(run).sessions| {
        NewSessionsStart(After(shorter), e, i);
      }
    }
  }

  // ---- A waiting send --------------------------------------------------------------------------

  /** Sessions whose completion has not been signalled. */
  function Undone(sessions: seq<Session>): nat {
    if sessions == [] then 0
    else Undone(sessions[..|sessions| - 1]) + (if sessions[|sessions| - 1].done then 0 else 1)
  }

  lemma {:induction false} UndoneUpdate(sessions: seq<Session>, i: nat, s: Session)
    requires i < |sessions|
    ensures Undone(sessions[i := s]) + (if sessions[i].done then 0 else 1)
            == Undone(sessions) + (if s.done then 0 else 1)
  {
    var last := |sessions| - 1;
    if i == last {
      assert sessions[i := s][..last] == sessions[..last];
    } else {
      UndoneUpdate(sessions[..last], i, s);
      assert sessions[i := s][..last] == sessions[..last][i := s];
    }
  }

  /** Steps the sessions can still take, polls aside, while earlier ones are closed. */
  function StepsLeft(w: World): nat {
    if w.sessions == [] then 0 else Rank(w.sessions[|w.sessions| - 1].stage) + Undone(w.sessions)
  }

  predicate IsStep(e: Event) {
    e.SessionStep? && !e.act.PollClients?
  }

  lemma StepIsSpent(w: World, e: Event)
    requires Inv(w) && Enabled(w, e) && IsStep(e)
    ensures StepsLeft(Apply(w, e)) < StepsLeft(w) && SameLoop(w, Apply(w, e))
  {
    var i := e.session;
    var s := w.sessions[i];
    UndoneUpdate(w.sessions, i, ActThread(s, e.act, w.point.Gone?));
    if s.Open() {
      StepLowersRank(s, e.act, w.point.Gone?);
      assert i == |w.sessions| - 1;
    }
  }

  /** However the sessions go on, their steps run out. */
  lemma {:induction false} StepsRunOut(w: World, events: seq<Event>, w': World)
    requires Inv(w) && Leads(w, events, w') && forall k :: 0 <= k < |events| ==> IsStep(events[k])
    ensures Inv(w') && SameLoop(w, w') && |events| + StepsLeft(w') <= StepsLeft(w)
    decreases |events|
  {
    if events != [] {
      StepIsSpent(w, events[0]);
      SessionStepKeeps(w, events[0].session, events[0].act);
      StepsRunOut(Apply(w, events[0]), events[1..], w');
    }
  }

  /** A send that waits for room waits for at most so many steps: whichever way the
      sessions take them, once they are taken the command can be handled. */
  lemma BlockedSendIsBounded(w: World, e: Event, events: seq<Event>, w': World)
    requires Inv(w) && e.HandleCommand? && w.point == Handling(e.cmd) && !Enabled(w, e)
    requires Leads(w, events, w') && forall k :: 0 <= k < |events| ==> IsStep(events[k])
    ensures |events| <= StepsLeft(w)
    ensures |events| == StepsLeft(w) ==> Enabled(w', e)
  {
    StepsRunOut(w, events, w');
  }

  // ---- A pending start ---------------------------------------------------------------------------

  /** A start is pending on a handle, and the loop is waiting or about to. */
  predicate Pending(w: World, config: ServerConfig) {
    && (w.point.Waiting? || w.point.Top?)
    && w.locals.pendingStart == Some(config) && w.locals.server.Some?
  }

  function LoopLeft(w: World): nat {
    if w.locals.server.Some? && w.locals.server.value.donePolled then 1 else if w.point.Waiting? then 2 else 3
  }

  function Wait(w: World): nat {
    StepsLeft(w) + LoopLeft(w)
  }

  /** No command arrives, no poll is counted, and the runtime builds. */
  predicate Onward(e: Event) {
    !e.Receive? && !RuntimeFails(e) && !(e.SessionStep? && e.act.PollClients?)
  }

  /** The step starts the pending config, or the operating system refuses the thread. */
  predicate Starts(w: World, e: Event, config: ServerConfig)
    requires Enabled(w, e)
  {
    Spawned(w, Apply(w, e), config) || (e.TurnTop? && !e.ok)
  }

  lemma TurnProgress(w: World, e: Event, config: ServerConfig)
    requires Inv(w) && NeverPolled(w) && Pending(w, config) && Enabled(w, e) && e.TurnTop?
    ensures Starts(w, e, config) || (Pending(Apply(w, e), config) && Wait(Apply(w, e)) < Wait(w))
  {
    if w.locals.server.value.donePolled {
      assert HandleClosed(w);
    }
  }

  lemma PendingProgress(w: World, e: Event, config: ServerConfig)
    requires Inv(w) && NeverPolled(w) && Pending(w, config) && Enabled(w, e) && Onward(e)
    ensures Starts(w, e, config) || (Pending(Apply(w, e), config) && Wait(Apply(w, e)) < Wait(w))
  {
    if e.TurnTop? {
      TurnProgress(w, e, config);
    } else if e.SessionStep? {
      StepIsSpent(w, e);
    }
  }

  lemma StepKeepsInv(w: World, e: Event)
    requires Inv(w) && Enabled(w, e)
    ensures Inv(Apply(w, e))
  {
    if e.SessionStep? {
      SessionStepKeeps(w, e.session, e.act);
    } else {
      LoopStepKeeps(w, e);
    }
  }

  lemma {:induction false} ConfigsStay(w: World, events: seq<Event>, w': World, i: nat)
    requires Leads(w, events, w') && i < |w.sessions|
    ensures i < |w'.sessions| && w'.sessions[i].config == w.sessions[i].config
    decreases |events|
  {
    if events != [] {
      ConfigStaysOnce(w, events[0], i);
      ConfigsStay(Apply(w, events[0]), events[1..], w', i);
    }
  }

  lemma ConfigStaysOnce(w: World, e: Event, i: nat)
    requires Enabled(w, e) && i < |w.sessions|
    ensures i < |Apply(w, e).sessions| && Apply(w, e).sessions[i].config == w.sessions[i].config
  {
  }

  /** A pending start waits for a bounded number of steps: in every continuation without a
      command that is longer than the wait, the next session has the pending config, unless
      the operating system refused a thread. */
  lemma {:induction false} PendingStarts(w: World, events: seq<Event>, w': World, config: ServerConfig)
    requires Inv(w) && NeverPolled(w) && Pending(w, config) && Leads(w, events, w')
    requires |events| > Wait(w) && forall k :: 0 <= k < |events| ==> Onward(events[k])
    ensures || (|w'.sessions| > |w.sessions| && w'.sessions[|w.sessions|].config == config)
            || exists k :: 0 <= k < |events| && events[k].TurnTop? && !events[k].ok
    decreases |events|
  {
    var e, rest := events[0], events[1..];
    var w1 := Apply(w, e);
    PendingProgress(w, e, config);
    if Spawned(w, w1, config) {
      ConfigsStay(w1, rest, w', |w.sessions|);
    } else if !(e.TurnTop? && !e.ok) {
      StepKeepsInv(w, e);
      NeverPolledStep(w, e);
      PendingGoesOn(w, e, config);
      PendingStarts(w1, rest, w', config);
      if k :| 0 <= k < |rest| && rest[k].TurnTop? && !rest[k].ok {
        assert events[k + 1] == rest[k];
      }
    }
  }

  lemma PendingGoesOn(w: World, e: Event, config: ServerConfig)
    requires Inv(w) && NeverPolled(w) && Pending(w, config) && Enabled(w, e) && Onward(e) && !Starts(w, e, config)
    ensures |Apply(w, e).sessions| == |w.sessions|
  {
  }
}
