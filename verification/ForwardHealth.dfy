/** Folding the health of a forward's two loopback stacks into one state. */
module ForwardHealth {
  import opened Options
  import opened Records
  import opened Text

  datatype BindError = BindError(inUse: bool, message: string)

  datatype StackHealth = StackHealth(up: bool, error: Option<BindError>)

  datatype ForwardState = Starting | Listening | Failed(reason: string)

  const UNRESOLVED := StackHealth(false, None)

  /** What a stack ever reports: bound, or down with an error. */
  predicate Report(h: StackHealth) {
    h.up <==> h.error.None?
  }

  function Fold(port: Port, v4: StackHealth, v6: StackHealth): ForwardState {
    if v4.up || v6.up then Listening
    else if v4.error.Some? && v6.error.Some? then
      Failed(if v4.error.value.inUse || v6.error.value.inUse then "port " + Decimal(port) + " is in use"
             else v4.error.value.message)
    else Starting
  }

  class ForwardShared {
    const port: Port
    var state: ForwardState
    const stacks: array<StackHealth>

    /** The published state is the fold of the two records. */
    ghost predicate Valid()
      reads this, stacks
    {
      stacks.Length == 2 && state == Fold(port, stacks[0], stacks[1])
    }

    constructor (port: Port)
      ensures Valid() && fresh(stacks) && this.port == port
      ensures stacks[..] == [UNRESOLVED, UNRESOLVED] && state == Starting
    {
      this.port := port;
      state := Starting;
      stacks := new StackHealth[2](_ => UNRESOLVED);
    }

    method SetStack(stack: nat, health: StackHealth)
      requires Valid() && stack < 2
      modifies this, stacks
      ensures Valid() && stacks[..] == old(stacks[..])[stack := health]
    {
      stacks[stack] := health;
      if stacks[0].up || stacks[1].up {
        state := Listening;
      } else if stacks[0].error.Some? && stacks[1].error.Some? {
        var inUse := stacks[0].error.value.inUse || stacks[1].error.value.inUse;
        state := Failed(if inUse then "port " + Decimal(port) + " is in use" else stacks[0].error.value.message);
      } else {
        state := Starting;
      }
    }
  }

  // ---- Every sequence of reports --------------------------------------------------------------

  /** The records after a sequence of (stack, report) pairs. */
  function After(reports: seq<(bool, StackHealth)>): (StackHealth, StackHealth) {
    if reports == [] then (UNRESOLVED, UNRESOLVED)
    else
      var (v4, v6) := After(reports[..|reports| - 1]);
      var (isV6, h) := reports[|reports| - 1];
      if isV6 then (v4, h) else (h, v6)
  }

  predicate Heard(reports: seq<(bool, StackHealth)>, isV6: bool) {
    exists i :: 0 <= i < |reports| && reports[i].0 == isV6
  }

  lemma {:induction false} Resolved(reports: seq<(bool, StackHealth)>)
    requires forall i :: 0 <= i < |reports| ==> Report(reports[i].1)
    ensures var (v4, v6) := After(reports);
            && (if Heard(reports, false) then Report(v4) else v4 == UNRESOLVED)
            && (if Heard(reports, true) then Report(v6) else v6 == UNRESOLVED)
  {
    if reports != [] {
      var last := |reports| - 1;
      Resolved(reports[..last]);
      forall b: bool ensures Heard(reports, b) <==> Heard(reports[..last], b) || reports[last].0 == b {
        if Heard(reports[..last], b) {
          var i :| 0 <= i < last && reports[..last][i].0 == b;
          assert reports[i].0 == b;
        }
        if Heard(reports, b) && reports[last].0 != b {
          var i :| 0 <= i < |reports| && reports[i].0 == b;
          assert reports[..last][i].0 == b;
        }
      }
    }
  }

  /** After any reports: listening exactly while a stack is bound; starting exactly
      until both have resolved their first bind with none up; failed otherwise. */
  lemma StateOfReports(port: Port, reports: seq<(bool, StackHealth)>)
    requires forall i :: 0 <= i < |reports| ==> Report(reports[i].1)
    ensures var (v4, v6) := After(reports);
            var state := Fold(port, v4, v6);
            && (state.Listening? <==> v4.up || v6.up)
            && (state.Starting? <==> !v4.up && !v6.up && !(Heard(reports, false) && Heard(reports, true)))
            && (state.Failed? <==> Heard(reports, false) && Heard(reports, true) && !v4.up && !v6.up)
  {
    Resolved(reports);
  }

  /** The stack's most recent report. */
  predicate Latest(reports: seq<(bool, StackHealth)>, isV6: bool, h: StackHealth) {
    exists k :: 0 <= k < |reports| && reports[k] == (isV6, h) && forall j :: k < j < |reports| ==> reports[j].0 != isV6
  }

  lemma {:induction false} LatestIsRecorded(reports: seq<(bool, StackHealth)>, k: nat)
    requires k < |reports| && forall j :: k < j < |reports| ==> reports[j].0 != reports[k].0
    ensures (if reports[k].0 then After(reports).1 else After(reports).0) == reports[k].1
  {
    if k < |reports| - 1 {
      assert reports[..|reports| - 1][k] == reports[k];
      LatestIsRecorded(reports[..|reports| - 1], k);
    }
  }

  /** A forward whose two stacks last reported these errors is failed: with the port's
      being in use if either says so, else with what the first stack says. */
  lemma FailureShown(port: Port, reports: seq<(bool, StackHealth)>, v4: BindError, v6: BindError)
    requires Latest(reports, false, StackHealth(false, Some(v4))) && Latest(reports, true, StackHealth(false, Some(v6)))
    ensures Fold(port, After(reports).0, After(reports).1)
            == Failed(if v4.inUse || v6.inUse then "port " + Decimal(port) + " is in use" else v4.message)
  {
    var i :| 0 <= i < |reports| && reports[i] == (false, StackHealth(false, Some(v4))) && forall j :: i < j < |reports| ==> reports[j].0;
    var k :| 0 <= k < |reports| && reports[k] == (true, StackHealth(false, Some(v6))) && forall j :: k < j < |reports| ==> !reports[j].0;
    LatestIsRecorded(reports, i);
    LatestIsRecorded(reports, k);
  }

  /** And it listens as soon as a stack's last report is that it is bound. */
  lemma ListeningShown(port: Port, reports: seq<(bool, StackHealth)>, isV6: bool, h: StackHealth)
    requires Latest(reports, isV6, h) && h.up
    ensures Fold(port, After(reports).0, After(reports).1) == Listening
  {
    var k :| 0 <= k < |reports| && reports[k] == (isV6, h) && forall j :: k < j < |reports| ==> reports[j].0 != isV6;
    LatestIsRecorded(reports, k);
  }
}
