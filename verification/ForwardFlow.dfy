/** Where a forward's accepted connections go: none is lost or served twice. */
module ForwardFlow {
  import opened ForwardRelays

  // ---- Counting events ----------------------------------------------------------------------

  function CountEvents(run: seq<Event>, p: Event -> bool): nat {
    if run == [] then 0 else CountEvents(run[..|run| - 1], p) + (if p(run[|run| - 1]) then 1 else 0)
  }

  /** Connections that went with a stack that ended while holding one. */
  ghost function DroppedWithStack(run: seq<Event>): nat
    requires Valid(run)
  {
    if run == [] then 0
    else
      var w, e := After(run[..|run| - 1]), run[|run| - 1];
      DroppedWithStack(run[..|run| - 1]) + (if e.StackEnds? && StackOf(w, e.isV6).Holding? then 1 else 0)
  }

  /** How the relays that hold a connection change. */
  lemma RelaysStep(w: World, e: Event)
    requires Enabled(w, e)
    ensures CountOf(Apply(w, e).relays, CONNECTED) + (if e.Close? then 1 else 0)
            == CountOf(w.relays, CONNECTED) + (if e.Acquire? then 1 else 0)
    ensures |Apply(w, e).relays| + (if e.Reap? then 1 else 0) == |w.relays| + (if e.Acquire? then 1 else 0)
  {
    match e
    case Acquire => CountConcat(w.relays, [Spawned], CONNECTED);
    case Count(r) => CountUpdate(w.relays, r, Counted, CONNECTED);
    case Close(r) => CountUpdate(w.relays, r, Relayed, CONNECTED);
    case Uncount(r) => CountUpdate(w.relays, r, Uncounted, CONNECTED);
    case Release(r) => CountUpdate(w.relays, r, Finished, CONNECTED);
    case Reap(r) =>
      CountReplace(w.relays, r, [], CONNECTED);
      assert w.relays[..r] + [] == w.relays[..r];
    case _ =>
  }

  /** What one event does to the connections held and to the relays listed. */
  lemma FlowStep(w: World, e: Event)
    requires Enabled(w, e)
    ensures Connections(Apply(w, e)) + (if e.Close? then 1 else 0)
            + (if e.StackEnds? && StackOf(w, e.isV6).Holding? then 1 else 0)
            == Connections(w) + (if e.Accept? then 1 else 0)
  {
    RelaysStep(w, e);
  }

  /** In every run the connections accepted are those held, those closed by their relay and
      those that went with their stack; and a relay is listed from its spawn to its join. */
  lemma {:induction false} ConnectionsAreConserved(run: seq<Event>)
    requires Valid(run)
    ensures CountEvents(run, (e: Event) => e.Accept?)
            == Connections(After(run)) + CountEvents(run, (e: Event) => e.Close?) + DroppedWithStack(run)
    ensures CountEvents(run, (e: Event) => e.Acquire?) == |After(run).relays| + CountEvents(run, (e: Event) => e.Reap?)
  {
    if run != [] {
      ConnectionsAreConserved(run[..|run| - 1]);
      FlowStep(After(run[..|run| - 1]), run[|run| - 1]);
      RelaysStep(After(run[..|run| - 1]), run[|run| - 1]);
    }
  }

  // ---- Lives ----------------------------------------------------------------------------------

  /** A stack binds, accepts one connection at a time, hands it over, binds again when its
      listener dies, and can end at any time. */
  predicate StackFollows(a: Stack, b: Stack) {
    match a
    case Unbound => b.Listening? || b.Ended?
    case Listening => b.Holding? || b.Unbound? || b.Ended?
    case Holding => b.Listening? || b.Ended?
    case Ended => false
  }

  predicate OfStack(e: Event, isV6: bool) {
    (e.Bind? || e.Accept? || e.Hand? || e.Rebind? || e.StackEnds?) && e.isV6 == isV6
  }

  /** A stack moves along its life by its own events only, and can make any of these moves
      as long as the channel has room. */
  lemma StackLife(w: World, isV6: bool, b: Stack)
    ensures forall e :: Enabled(w, e) && OfStack(e, isV6) ==> StackFollows(StackOf(w, isV6), StackOf(Apply(w, e), isV6))
    ensures forall e :: Enabled(w, e) && !OfStack(e, isV6) ==> StackOf(Apply(w, e), isV6) == StackOf(w, isV6)
    ensures StackFollows(StackOf(w, isV6), b) && w.channel < CHANNEL_CAPACITY ==>
              exists e :: Enabled(w, e) && OfStack(e, isV6) && StackOf(Apply(w, e), isV6) == b
  {
    if StackFollows(StackOf(w, isV6), b) && w.channel < CHANNEL_CAPACITY {
      var e := match b
        case Listening => if StackOf(w, isV6).Unbound? then Bind(isV6) else Hand(isV6)
        case Holding => Accept(isV6)
        case Unbound => Rebind(isV6)
        case Ended => StackEnds(isV6);
      assert Enabled(w, e) && OfStack(e, isV6) && StackOf(Apply(w, e), isV6) == b;
    }
  }

  /** A relay is spawned, counted, closed, uncounted and finished, in that order. */
  function RelayNext(a: Relay): Relay {
    match a
    case Spawned => Counted
    case Counted => Relayed
    case Relayed => Uncounted
    case Uncounted => Finished
    case Finished => Finished
  }

  predicate OfRelay(e: Event, r: nat) {
    (e.Count? || e.Close? || e.Uncount? || e.Release?) && e.relay == r
  }

  /** In every run a relay that is not finished can take its next step, and no other; a
      finished one is joined as soon as the loop has nothing in hand. */
  lemma RelayLife(run: seq<Event>, r: nat)
    requires Valid(run) && r < |After(run).relays|
    ensures var w := After(run);
            && (forall e :: Enabled(w, e) && OfRelay(e, r) ==> Apply(w, e).relays[r] == RelayNext(w.relays[r]))
            && (!w.relays[r].Finished? ==> exists e :: Enabled(w, e) && OfRelay(e, r))
            && (w.relays[r].Finished? && !w.inHand ==> Enabled(w, Reap(r)))
  {
    var w := After(run);
    match w.relays[r]
    case Spawned => assert Enabled(w, Count(r)) && OfRelay(Count(r), r);
    case Counted => assert Enabled(w, Close(r)) && OfRelay(Close(r), r);
    case Relayed =>
      UncountIsSafe(run, r);
      assert OfRelay(Uncount(r), r);
    case Uncounted => assert Enabled(w, Release(r)) && OfRelay(Release(r), r);
    case Finished =>
  }
}
