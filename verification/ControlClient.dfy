/** The client of the control channel as an object, and its calls in the runs of
    `ControlPairing`: each has the outcome the object's method computes. */
module ControlClient {
  import opened Options
  import opened ControlPairing
  import ControlLine

  // ---- The client ----------------------------------------------------------------------------

  /** How a round trip ends: in time with a response or an error, or not in time. */
  datatype Trip = Answered(line: string) | Failed | OutOfTime

  /** What a call leaves: the connection in use, how many were opened, and the response. */
  datatype Outcome = Outcome(stream: Option<nat>, connections: nat, response: Option<string>)

  /** A connection is opened if there is none, and given up on a timeout and only then. */
  function Requested(stream: Option<nat>, connections: nat, reachable: bool, trip: Trip): Outcome {
    if stream.None? && !reachable then Outcome(None, connections, None)
    else
      Outcome(
        if trip.OutOfTime? then None else if stream.Some? then stream else Some(connections),
        if stream.Some? then connections else connections + 1,
        if trip.Answered? then Some(trip.line) else None)
  }

  class IpcClient {
    var stream: Option<nat>    // the connection, by number
    var connections: nat       // opened so far

    constructor ()
      ensures stream == INITIAL_WORLD.stream && connections == |INITIAL_WORLD.conns|
    {
      stream, connections := Some(0), 1;
    }

    method Request(reachable: bool, trip: Trip) returns (response: Option<string>)
      modifies this
      ensures Outcome(stream, connections, response) == Requested(old(stream), old(connections), reachable, trip)
    {
      response := None;
      if stream.None? {
        if !reachable {
          return;
        }
        stream, connections := Some(connections), connections + 1;
      }
      match trip
      case Answered(line) => response := Some(line);
      case Failed =>
      case OutOfTime => stream := None;
    }
  }

  // ---- Its calls in a run ----------------------------------------------------------------------

  /** One call, with whatever the servers do meanwhile: from its begin to the first
      world in which the client is idle again. */
  predicate Call(ws: seq<World>, events: seq<Event>) {
    && Trace(ws, events) && events != [] && events[0].Begin?
    && (forall i :: 0 < i < |events| ==> !ws[i].phase.Idle?) && ws[|events|].phase.Idle?
  }

  /** The round trip's end, by the event that ends it. */
  function Ending(w: World, e: Event): Trip
    requires Enabled(w, e)
  {
    match e
    case TimedOut => OutOfTime
    case Read(parses) =>
      var wire, read := w.conns[w.stream.value].wire, NextRead(w);
      if read.Line? && 0 < read.consumed <= |wire| && parses then Answered(Chars(wire[..read.consumed])) else Failed
    case _ => Failed
  }

  /** The caller of request `id` was handed this line and no other call returned. */
  predicate Hands(before: World, after: World, id: nat, response: Option<string>) {
    match response
    case None => after.returned == before.returned
    case Some(line) =>
      && |after.returned| == |before.returned| + 1 && after.returned[..|before.returned|] == before.returned
      && after.returned[|before.returned|].0 == id && Chars(after.returned[|before.returned|].1) == line
  }

  /** `v` is inside the call that began in `w`. */
  predicate During(w: World, v: World) {
    && !v.phase.Idle? && v.phase.id == w.nextId && v.returned == w.returned
    && if v.phase.Connecting? then w.stream.None? && v.stream.None? && |v.conns| == |w.conns|
       else
         && v.stream == (if w.stream.Some? then w.stream else Some(|w.conns|))
         && |v.conns| == |w.conns| + (if w.stream.Some? then 0 else 1)
  }

  lemma DuringStep(w: World, v: World, e: Event)
    requires During(w, v) && Enabled(v, e) && !Apply(v, e).phase.Idle?
    ensures During(w, Apply(v, e))
  {
  }

  lemma {:induction false} InsideCall(ws: seq<World>, events: seq<Event>, k: nat)
    requires Call(ws, events) && 0 < k < |events|
    ensures During(ws[0], ws[k])
  {
    assert StepAt(ws, events, k - 1);
    if k > 1 {
      InsideCall(ws, events, k - 1);
      DuringStep(ws[0], ws[k - 1], events[k - 1]);
    }
  }

  lemma CallEnds(w: World, v: World, e: Event)
    requires During(w, v) && Enabled(v, e) && Apply(v, e).phase.Idle?
    ensures var o := Requested(w.stream, |w.conns|, !e.ReconnectFailed?, Ending(v, e));
            var w' := Apply(v, e);
            w'.stream == o.stream && |w'.conns| == o.connections && Hands(w, w', w.nextId, o.response)
  {
    if e.Read? {
      ControlLine.ReadsOneLine(Chars(v.conns[v.stream.value].wire), v.conns[v.stream.value].closed);
    }
  }

  /** Every call in every run, whatever happens during it, leaves the connection, the
      count of connections and the response that `Request` computes from how it ended. */
  lemma CallsFollowRequest(ws: seq<World>, events: seq<Event>)
    requires Call(ws, events)
    ensures var last := |events| - 1;
            Enabled(ws[last], events[last]) &&
            var o := Requested(ws[0].stream, |ws[0].conns|, !events[last].ReconnectFailed?, Ending(ws[last], events[last]));
            && ws[|events|].stream == o.stream && |ws[|events|].conns| == o.connections
            && Hands(ws[0], ws[|events|], ws[0].nextId, o.response)
  {
    var last := |events| - 1;
    assert StepAt(ws, events, last);
    assert StepAt(ws, events, 0);
    InsideCall(ws, events, last);
    CallEnds(ws[0], ws[last], events[last]);
  }

  /** A reconnect leaves every old connection as it is and uses a new one: open, with
      nothing asked on it and nothing to read. */
  lemma ReconnectsAfresh(w: World)
    requires Enabled(w, Reconnected)
    ensures var v := Apply(w, Reconnected);
            && v.stream == Some(|w.conns|) && |v.conns| == |w.conns| + 1 && v.conns[..|w.conns|] == w.conns
            && var c := v.conns[|w.conns|]; !c.closed && c.asked == [] && c.answered == 0 && c.wire == []
  {
  }
}
