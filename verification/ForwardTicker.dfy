/** A command-line session's ticks: forwards whose listener failed are switched off,
    with the reason kept, and the listener tasks reconciled. */
module ForwardTicker {
  import opened Options
  import opened Records
  import opened ForwardHealth
  import opened Forwarding = ForwardManager
  import ForwardConfig

  datatype Status = Status(id: string, state: ForwardState, active: nat, lastError: Option<string>)

  function SpecOf(f: PortForward): ForwardSpec {
    ForwardSpec(f.id, f.localPort, f.remoteHost, f.remotePort)
  }

  function EnabledSpecs(forwards: seq<PortForward>): seq<ForwardSpec> {
    if forwards == [] then []
    else
      var last := forwards[|forwards| - 1];
      EnabledSpecs(forwards[..|forwards| - 1]) + (if last.enabled then [SpecOf(last)] else [])
  }

  function EnabledCount(forwards: seq<PortForward>): (n: nat)
    ensures n <= |forwards|
  {
    if forwards == [] then 0
    else EnabledCount(forwards[..|forwards| - 1]) + (if forwards[|forwards| - 1].enabled then 1 else 0)
  }

  // ---- Switching failed forwards off ----------------------------------------------------------

  /** The first enabled forward with the id. */
  function FindEnabled(forwards: seq<PortForward>, id: string): (r: Option<nat>)
    ensures r.Some? ==> r.value < |forwards| && forwards[r.value].id == id && forwards[r.value].enabled
                        && forall j :: 0 <= j < r.value ==> !(forwards[j].id == id && forwards[j].enabled)
    ensures r.None? ==> forall j :: 0 <= j < |forwards| ==> !(forwards[j].id == id && forwards[j].enabled)
  {
    if forwards == [] then None
    else
      var last := |forwards| - 1;
      var earlier := FindEnabled(forwards[..last], id);
      assert forall j :: 0 <= j < last ==> forwards[..last][j] == forwards[j];
      if earlier.Some? then earlier
      else if forwards[last].id == id && forwards[last].enabled then Some(last)
      else None
  }

  /** What one status does. */
  function Flipped(forwards: seq<PortForward>, status: Status): Option<nat> {
    if status.state.Failed? then FindEnabled(forwards, status.id) else None
  }

  type Reasons = seq<(string, string)>

  function Disabled(forwards: seq<PortForward>, statuses: seq<Status>): (seq<PortForward>, Reasons) {
    if statuses == [] then (forwards, [])
    else
      var (before, reasons) := Disabled(forwards, statuses[..|statuses| - 1]);
      var status := statuses[|statuses| - 1];
      match Flipped(before, status)
      case None => (before, reasons)
      case Some(i) => (before[i := before[i].(enabled := false)], reasons + [(status.id, status.state.reason)])
  }

  method DisableFailed(forwards: array<PortForward>, statuses: seq<Status>) returns (disabled: Reasons)
    modifies forwards
    ensures (forwards[..], disabled) == Disabled(old(forwards[..]), statuses)
  {
    disabled := [];
    for k := 0 to |statuses|
      invariant (forwards[..], disabled) == Disabled(old(forwards[..]), statuses[..k])
    {
      assert statuses[..k + 1][..k] == statuses[..k];
      if statuses[k].state.Failed? {
        var found := FindEnabled(forwards[..], statuses[k].id);
        if found.Some? {
          var i := found.value;
          forwards[i] := forwards[i].(enabled := false);
          disabled := disabled + [(forwards[i].id, statuses[k].state.reason)];
        }
      }
    }
    assert statuses[..|statuses|] == statuses;
  }

  // ---- One tick --------------------------------------------------------------------------------

  datatype State = State(forwards: seq<PortForward>, reasons: map<string, string>, tasks: Tasks, nextHandle: nat)

  function Recorded(known: map<string, string>, reasons: Reasons): map<string, string> {
    if reasons == [] then known
    else Recorded(known, reasons[..|reasons| - 1])[reasons[|reasons| - 1].0 := reasons[|reasons| - 1].1]
  }

  function Opened(forwards: seq<PortForward>): State {
    var (tasks, next) := Reconciled(map[], EnabledSpecs(forwards), 0);
    State(forwards, map[], tasks, next)
  }

  function Reapplied(s: State, forwards: seq<PortForward>, reasons: Reasons): State {
    var (tasks, next) := Reconciled(s.tasks, EnabledSpecs(forwards), s.nextHandle);
    State(forwards, Recorded(s.reasons, reasons), tasks, next)
  }

  function Ticked(s: State, statuses: seq<Status>): State {
    var (forwards, reasons) := Disabled(s.forwards, statuses);
    if reasons == [] then s.(forwards := forwards) else Reapplied(s, forwards, reasons)
  }

  class Session {
    const forwards: array<PortForward>
    var disabledReasons: map<string, string>
    const manager: Manager

    ghost function Value(): State
      reads this, forwards, manager
    {
      State(forwards[..], disabledReasons, manager.tasks, manager.nextHandle)
    }

    ghost predicate Valid()
      reads this, manager
    {
      ValidTasks(manager.tasks, manager.nextHandle)
    }

    constructor (forwards: array<PortForward>)
      ensures Valid() && Value() == Opened(forwards[..]) && this.forwards == forwards && fresh(manager)
    {
      this.forwards := forwards;
      disabledReasons := map[];
      manager := new Manager(EnabledSpecs(forwards[..]));
    }

    method Tick(statuses: seq<Status>)
      requires Valid()
      modifies this, forwards, manager
      ensures Valid() && Value() == Ticked(old(Value()), statuses)
    {
      var failed := DisableFailed(forwards, statuses);
      if failed != [] {
        Record(failed);
        manager.ApplyForwards(EnabledSpecs(forwards[..]));
      }
    }

    method Record(failed: Reasons)
      modifies `disabledReasons
      ensures disabledReasons == Recorded(old(disabledReasons), failed)
    {
      for i := 0 to |failed|
        invariant disabledReasons == Recorded(old(disabledReasons), failed[..i])
      {
        assert failed[..i + 1][..i] == failed[..i];
        disabledReasons := disabledReasons[failed[i].0 := failed[i].1];
      }
      assert failed[..|failed|] == failed;
    }
  }

  // ---- What switching off does -------------------------------------------------------------------

  predicate ReportsFailure(statuses: seq<Status>, id: string) {
    exists k :: 0 <= k < |statuses| && statuses[k].id == id && statuses[k].state.Failed?
  }

  lemma {:induction false} CountFlip(forwards: seq<PortForward>, i: nat)
    requires i < |forwards| && forwards[i].enabled
    ensures EnabledCount(forwards[i := forwards[i].(enabled := false)]) + 1 == EnabledCount(forwards)
  {
    var last := |forwards| - 1;
    var after := forwards[i := forwards[i].(enabled := false)];
    if i == last {
      assert after[..last] == forwards[..last];
    } else {
      CountFlip(forwards[..last], i);
      assert after[..last] == forwards[..last][i := forwards[i].(enabled := false)];
    }
  }

  /** Whatever the statuses: one enabled forward is lost per reason reported. */
  lemma {:induction false} OneReasonPerForward(forwards: seq<PortForward>, statuses: seq<Status>)
    ensures var (after, reasons) := Disabled(forwards, statuses);
            |after| == |forwards| && EnabledCount(after) + |reasons| == EnabledCount(forwards)
  {
    if statuses != [] {
      var shorter := statuses[..|statuses| - 1];
      OneReasonPerForward(forwards, shorter);
      var (before, _) := Disabled(forwards, shorter);
      var flip := Flipped(before, statuses[|statuses| - 1]);
      if flip.Some? {
        CountFlip(before, flip.value);
      }
    }
  }

  lemma FailureReported(statuses: seq<Status>, id: string)
    requires statuses != []
    ensures ReportsFailure(statuses, id) <==>
              ReportsFailure(statuses[..|statuses| - 1], id)
              || (statuses[|statuses| - 1].id == id && statuses[|statuses| - 1].state.Failed?)
  {
    var last := |statuses| - 1;
    if ReportsFailure(statuses[..last], id) {
      var k :| 0 <= k < last && statuses[..last][k].id == id && statuses[..last][k].state.Failed?;
      assert statuses[k].id == id;
    }
    if ReportsFailure(statuses, id) && !(statuses[last].id == id && statuses[last].state.Failed?) {
      var k :| 0 <= k < |statuses| && statuses[k].id == id && statuses[k].state.Failed?;
      assert statuses[..last][k].id == id;
    }
  }

  /** With unique ids a forward changes only its switch, and is on afterwards exactly
      if it was on and no status reports its failure. */
  lemma {:induction false} DisabledExact(forwards: seq<PortForward>, statuses: seq<Status>, i: nat)
    requires ForwardConfig.UniqueIds(forwards) && i < |forwards|
    ensures var after := Disabled(forwards, statuses).0;
            && |after| == |forwards|
            && after[i] == forwards[i].(enabled := forwards[i].enabled && !ReportsFailure(statuses, forwards[i].id))
  {
    if statuses != [] {
      var last := |statuses| - 1;
      DisabledExact(forwards, statuses[..last], i);
      var before := Disabled(forwards, statuses[..last]).0;
      var flip := Flipped(before, statuses[last]);
      FailureReported(statuses, forwards[i].id);
      if flip.Some? && flip.value != i {
        DisabledExact(forwards, statuses[..last], flip.value);
      }
    }
  }

  /** A reason recorded comes from a failed status of its id; a forward newly off has one. */
  lemma {:induction false} ReasonsExact(forwards: seq<PortForward>, statuses: seq<Status>)
    ensures var (after, reasons) := Disabled(forwards, statuses);
            && |after| == |forwards|
            && (forall r :: r in reasons ==>
                  exists k :: 0 <= k < |statuses| && statuses[k].id == r.0 && statuses[k].state == Failed(r.1))
            && (forall i :: 0 <= i < |forwards| ==>
                  && after[i].id == forwards[i].id
                  && (forwards[i].enabled && !after[i].enabled ==> exists r :: r in reasons && r.0 == forwards[i].id))
  {
    if statuses != [] {
      var last := |statuses| - 1;
      ReasonsExact(forwards, statuses[..last]);
      var (before, earlier) := Disabled(forwards, statuses[..last]);
      var (after, reasons) := Disabled(forwards, statuses);
      assert forall r :: r in earlier ==> r in reasons;
      forall r | r in reasons
        ensures exists k :: 0 <= k < |statuses| && statuses[k].id == r.0 && statuses[k].state == Failed(r.1)
      {
        if r in earlier {
          var k :| 0 <= k < last && statuses[..last][k].id == r.0 && statuses[..last][k].state == Failed(r.1);
          assert statuses[k].id == r.0;
        } else {
          assert statuses[last].id == r.0;
        }
      }
      var flip := Flipped(before, statuses[last]);
      forall i | 0 <= i < |forwards| && forwards[i].enabled && !after[i].enabled
        ensures exists r :: r in reasons && r.0 == forwards[i].id
      {
        if before[i].enabled {
          assert reasons[|reasons| - 1].0 == forwards[i].id;
        } else {
          var r :| r in earlier && r.0 == forwards[i].id;
          assert r in reasons;
        }
      }
    }
  }

  lemma {:induction false} RecordedExact(known: map<string, string>, reasons: Reasons, id: string)
    ensures id in Recorded(known, reasons) <==> id in known || exists r :: r in reasons && r.0 == id
    ensures id in Recorded(known, reasons) ==>
              (id, Recorded(known, reasons)[id]) in reasons || (id in known && Recorded(known, reasons)[id] == known[id])
  {
    if reasons != [] {
      var last := |reasons| - 1;
      RecordedExact(known, reasons[..last], id);
      assert reasons == reasons[..last] + [reasons[last]];
    }
  }

  // ---- The session's invariant -----------------------------------------------------------------

  lemma {:induction false} EnabledSpecsExact(forwards: seq<PortForward>)
    requires ForwardConfig.UniqueIds(forwards)
    ensures forall spec :: spec in EnabledSpecs(forwards) <==>
                             exists i :: 0 <= i < |forwards| && forwards[i].enabled && SpecOf(forwards[i]) == spec
    ensures UniqueIds(EnabledSpecs(forwards))
  {
    if forwards != [] {
      var last := |forwards| - 1;
      EnabledSpecsExact(forwards[..last]);
      var specs := EnabledSpecs(forwards[..last]);
      forall spec
        ensures spec in EnabledSpecs(forwards) <==>
                  exists i :: 0 <= i < |forwards| && forwards[i].enabled && SpecOf(forwards[i]) == spec
      {
        if spec in specs {
          var i :| 0 <= i < last && forwards[..last][i].enabled && SpecOf(forwards[..last][i]) == spec;
          assert SpecOf(forwards[i]) == spec;
        }
        if i :| 0 <= i < last && forwards[i].enabled && SpecOf(forwards[i]) == spec {
          assert SpecOf(forwards[..last][i]) == spec;
        }
      }
      forall k | 0 <= k < |specs| ensures specs[k].id != forwards[last].id {
        assert specs[k] in specs;
        var i :| 0 <= i < last && forwards[..last][i].enabled && SpecOf(forwards[..last][i]) == specs[k];
      }
    }
  }

  /** The forward has a task exactly while enabled, and a reason whenever it is not. */
  ghost predicate Settled(s: State, i: nat)
    requires i < |s.forwards|
  {
    var f := s.forwards[i];
    && (f.enabled ==> f.id in s.tasks && s.tasks[f.id].spec == SpecOf(f))
    && (!f.enabled ==> f.id !in s.tasks && f.id in s.reasons)
  }

  ghost predicate Inv(s: State) {
    && ForwardConfig.UniqueIds(s.forwards)
    && ValidTasks(s.tasks, s.nextHandle)
    && (forall i :: 0 <= i < |s.forwards| ==> Settled(s, i))
    && (forall id :: id in s.tasks ==> exists i :: 0 <= i < |s.forwards| && s.forwards[i].id == id)
  }

  predicate SameTask(s: State, t: State, id: string) {
    id in s.tasks && id in t.tasks && t.tasks[id] == s.tasks[id]
  }

  /** The later state's forward differs at most in being off; left on, it keeps its task. */
  predicate FollowsAt(s: State, t: State, i: nat)
    requires i < |s.forwards| && i < |t.forwards|
  {
    && t.forwards[i] == s.forwards[i].(enabled := t.forwards[i].enabled)
    && (t.forwards[i].enabled ==> s.forwards[i].enabled && SameTask(s, t, s.forwards[i].id))
  }

  predicate Follows(s: State, t: State) {
    |t.forwards| == |s.forwards| && forall i :: 0 <= i < |s.forwards| ==> FollowsAt(s, t, i)
  }

  lemma FollowsSelf(s: State)
    requires Inv(s)
    ensures Follows(s, s)
  {
    forall i | 0 <= i < |s.forwards| ensures FollowsAt(s, s, i) {
      assert Settled(s, i);
    }
  }

  lemma FollowsThrough(s: State, t: State, u: State)
    requires Follows(s, t) && Follows(t, u)
    ensures Follows(s, u)
  {
    forall i | 0 <= i < |s.forwards| ensures FollowsAt(s, u, i) {
      assert FollowsAt(s, t, i) && FollowsAt(t, u, i);
    }
  }

  /** Reconciling with the enabled forwards gives exactly their tasks; a task whose
      forward is still on is the same task as before. */
  lemma ReconciledMatches(tasks: Tasks, forwards: seq<PortForward>, nextHandle: nat, i: nat)
    requires ForwardConfig.UniqueIds(forwards) && ValidTasks(tasks, nextHandle) && i < |forwards|
    ensures var after := Reconciled(tasks, EnabledSpecs(forwards), nextHandle).0;
            var f := forwards[i];
            && (f.id in after <==> f.enabled)
            && (f.enabled ==> after[f.id].spec == SpecOf(f))
            && (f.enabled && f.id in tasks && tasks[f.id].spec == SpecOf(f) ==> after[f.id] == tasks[f.id])
  {
    EnabledSpecsExact(forwards);
    var specs := EnabledSpecs(forwards);
    var f := forwards[i];
    ReconcileExact(tasks, specs, nextHandle, f.id);
    if f.enabled {
      assert SpecOf(f) in specs;
      var k :| 0 <= k < |specs| && specs[k] == SpecOf(f);
      assert Mentions(specs, f.id);
      UniqueSpec(specs, Reconciled(tasks, specs, nextHandle).0[f.id].spec, SpecOf(f));
    } else {
      assert forall k :: 0 <= k < |specs| ==> specs[k] in specs;
    }
  }

  lemma TasksAreForwards(tasks: Tasks, forwards: seq<PortForward>, nextHandle: nat, id: string)
    requires ForwardConfig.UniqueIds(forwards) && ValidTasks(tasks, nextHandle)
    requires id in Reconciled(tasks, EnabledSpecs(forwards), nextHandle).0
    ensures exists i :: 0 <= i < |forwards| && forwards[i].id == id
  {
    EnabledSpecsExact(forwards);
    ReconcileExact(tasks, EnabledSpecs(forwards), nextHandle, id);
  }

  lemma OpenedIsSettled(forwards: seq<PortForward>)
    requires ForwardConfig.UniqueIds(forwards) && forall i :: 0 <= i < |forwards| ==> forwards[i].enabled
    ensures Inv(Opened(forwards))
  {
    var s := Opened(forwards);
    ReconciledIsValid(map[], EnabledSpecs(forwards), 0);
    forall i | 0 <= i < |forwards| ensures Settled(s, i) {
      ReconciledMatches(map[], forwards, 0, i);
    }
    forall id | id in s.tasks ensures exists i :: 0 <= i < |forwards| && forwards[i].id == id {
      TasksAreForwards(map[], forwards, 0, id);
    }
  }

  lemma NothingFailed(forwards: seq<PortForward>, statuses: seq<Status>)
    requires Disabled(forwards, statuses).1 == []
    ensures Disabled(forwards, statuses).0 == forwards
  {
    if statuses != [] {
      NothingFailed(forwards, statuses[..|statuses| - 1]);
    }
  }

  lemma ReapplyKeeps(s: State, forwards: seq<PortForward>, reasons: Reasons)
    requires Inv(s) && |forwards| == |s.forwards|
    requires forall i :: 0 <= i < |forwards| ==> forwards[i] == s.forwards[i].(enabled := forwards[i].enabled)
    requires forall i :: 0 <= i < |forwards| && forwards[i].enabled ==> s.forwards[i].enabled
    requires forall i :: 0 <= i < |forwards| && s.forwards[i].enabled && !forwards[i].enabled ==>
                           exists r :: r in reasons && r.0 == forwards[i].id
    ensures Inv(Reapplied(s, forwards, reasons)) && Follows(s, Reapplied(s, forwards, reasons))
  {
    var t := Reapplied(s, forwards, reasons);
    assert ForwardConfig.UniqueIds(forwards);
    ReconciledIsValid(s.tasks, EnabledSpecs(forwards), s.nextHandle);
    forall i | 0 <= i < |forwards|
      ensures Settled(t, i) && FollowsAt(s, t, i)
    {
      assert Settled(s, i);
      ReconciledMatches(s.tasks, forwards, s.nextHandle, i);
      RecordedExact(s.reasons, reasons, forwards[i].id);
    }
    forall id | id in t.tasks ensures exists i :: 0 <= i < |forwards| && forwards[i].id == id {
      TasksAreForwards(s.tasks, forwards, s.nextHandle, id);
    }
  }

  /** A tick keeps the tasks equal to the enabled forwards and a reason for each
      disabled one; a forward left on keeps its very task. */
  lemma TickKeeps(s: State, statuses: seq<Status>)
    requires Inv(s)
    ensures Inv(Ticked(s, statuses)) && Follows(s, Ticked(s, statuses))
    ensures forall i :: 0 <= i < |s.forwards| ==>
              (Ticked(s, statuses).forwards[i].enabled <==>
                 s.forwards[i].enabled && !ReportsFailure(statuses, s.forwards[i].id))
  {
    var (forwards, reasons) := Disabled(s.forwards, statuses);
    ReasonsExact(s.forwards, statuses);
    forall i | 0 <= i < |s.forwards|
      ensures forwards[i] == s.forwards[i].(enabled := forwards[i].enabled)
      ensures forwards[i].enabled <==> s.forwards[i].enabled && !ReportsFailure(statuses, s.forwards[i].id)
    {
      DisabledExact(s.forwards, statuses, i);
    }
    if reasons == [] {
      NothingFailed(s.forwards, statuses);
      FollowsSelf(s);
    } else {
      ReapplyKeeps(s, forwards, reasons);
    }
  }

  // ---- Whole sessions ----------------------------------------------------------------------------

  /** The state after these ticks, and how many of them re-applied. */
  function Run(s: State, ticks: seq<seq<Status>>): (State, nat) {
    if ticks == [] then (s, 0)
    else
      var (before, applies) := Run(s, ticks[..|ticks| - 1]);
      var statuses := ticks[|ticks| - 1];
      (Ticked(before, statuses), applies + (if Disabled(before.forwards, statuses).1 == [] then 0 else 1))
  }

  /** In every session started from an accepted configuration, after any ticks: the
      tasks are the enabled forwards, every disabled one has a reason, and each
      re-apply has switched off at least one more forward for good. */
  lemma {:induction false} SessionsSettle(s: State, ticks: seq<seq<Status>>)
    requires Inv(s)
    ensures Inv(Run(s, ticks).0) && Follows(s, Run(s, ticks).0)
    ensures Run(s, ticks).1 + EnabledCount(Run(s, ticks).0.forwards) <= EnabledCount(s.forwards)
  {
    if ticks == [] {
      FollowsSelf(s);
    } else {
      var shorter, statuses := ticks[..|ticks| - 1], ticks[|ticks| - 1];
      SessionsSettle(s, shorter);
      var before := Run(s, shorter).0;
      TickKeeps(before, statuses);
      FollowsThrough(s, before, Ticked(before, statuses));
      OneReasonPerForward(before.forwards, statuses);
    }
  }

  lemma ConfiguredSessionsSettle(build: ForwardConfig.Builder, entries: seq<ForwardConfig.Entry>,
                                 forwards: seq<PortForward>, ticks: seq<seq<Status>>)
    requires ForwardConfig.Accepted(build, entries, forwards) && build == ForwardConfig.ForwardOf
    ensures Inv(Run(Opened(forwards), ticks).0) && Run(Opened(forwards), ticks).1 <= |entries|
  {
    ForwardConfig.AcceptedIsSound(build, entries, forwards);
    OpenedIsSettled(forwards);
    SessionsSettle(Opened(forwards), ticks);
  }

  // ---- Status rows ---------------------------------------------------------------------------------

  datatype RowState = Stopped | RowStarting | RowListening | RowFailed

  datatype Row = Row(state: RowState, error: Option<string>, active: nat, lastError: Option<string>)

  function FindStatus(statuses: seq<Status>, id: string): (r: Option<Status>)
    ensures r.Some? ==> r.value in statuses && r.value.id == id
    ensures r.None? ==> forall k :: 0 <= k < |statuses| ==> statuses[k].id != id
  {
    if statuses == [] then None
    else if statuses[0].id == id then Some(statuses[0])
    else FindStatus(statuses[1..], id)
  }

  function RowOf(s: State, f: PortForward, statuses: seq<Status>): Row {
    if !f.enabled then
      Row(Stopped, if f.id in s.reasons then Some(s.reasons[f.id]) else None, 0, None)
    else
      match FindStatus(statuses, f.id)
      case None => Row(RowStarting, None, 0, None)
      case Some(status) =>
        match status.state
        case Starting => Row(RowStarting, None, status.active, status.lastError)
        case Listening => Row(RowListening, None, status.active, status.lastError)
        case Failed(reason) => Row(RowFailed, Some(reason), status.active, status.lastError)
  }

  predicate OncePerId(statuses: seq<Status>) {
    forall i, j :: 0 <= i < j < |statuses| ==> statuses[i].id != statuses[j].id
  }

  /** The statuses list each task once, in any order. */
  predicate ListsTasks(statuses: seq<Status>, tasks: Tasks) {
    && OncePerId(statuses)
    && (forall k :: 0 <= k < |statuses| ==> statuses[k].id in tasks)
    && (forall id :: id in tasks ==> exists k :: 0 <= k < |statuses| && statuses[k].id == id)
  }

  predicate Shows(row: Row, status: Status) {
    && row.active == status.active && row.lastError == status.lastError
    && match status.state
       case Starting => row.state.RowStarting? && row.error.None?
       case Listening => row.state.RowListening? && row.error.None?
       case Failed(reason) => row.state.RowFailed? && row.error == Some(reason)
  }

  lemma RowOfEnabled(s: State, f: PortForward, statuses: seq<Status>, k: nat)
    requires f.enabled && OncePerId(statuses) && k < |statuses| && statuses[k].id == f.id
    ensures Shows(RowOf(s, f, statuses), statuses[k])
  {
    var found := FindStatus(statuses, f.id);
    var j :| 0 <= j < |statuses| && statuses[j] == found.value;
  }

  /** In a settled session a row is never guessed: off with the reason, or on with
      the figures of the one status of the forward's own task. */
  lemma RowsTellTheTruth(s: State, statuses: seq<Status>, i: nat)
    requires Inv(s) && ListsTasks(statuses, s.tasks) && i < |s.forwards|
    ensures var f := s.forwards[i];
            var row := RowOf(s, f, statuses);
            if f.enabled then
              exists k :: 0 <= k < |statuses| && statuses[k].id == f.id && Shows(row, statuses[k])
            else
              row.state.Stopped? && f.id in s.reasons && row.error == Some(s.reasons[f.id])
  {
    assert Settled(s, i);
    var f := s.forwards[i];
    if f.enabled {
      assert f.id in s.tasks;
      var k :| 0 <= k < |statuses| && statuses[k].id == f.id;
      RowOfEnabled(s, f, statuses, k);
    }
  }
}
