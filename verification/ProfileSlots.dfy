/** Which profiles have a snapshot slot after any run, told from the events: the last
    write or deletion of the slot decides. */
module ProfileSlots {
  import opened ProfileSessions

  /** A session writes on every change of its state but the two that keep it, and a
      connect refused for want of a thread or for another profile's server leaves its
      reason. */
  predicate WritesTo(w: World, e: Event, id: string) {
    || (e.Act? && e.thread < |w.threads| && w.threads[e.thread].profile == id
        && !e.step.GiveUp? && !e.step.Up? && !e.step.Release? && !e.step.Signal? && !e.step.DropReceiver?)
    || (e.Handle? && w.hand.Handling? && w.hand.cmd.Connect? && w.hand.cmd.profile == id && id !in w.sessions
        && (!e.spawned || ServerHeld(w, w.hand.cmd.server)))
  }

  /** A removal deletes the slot at once if the profile has no session, and otherwise
      when its session is done. */
  predicate Deletes(w: World, e: Event, id: string) {
    || (e.Remove? && e.thread < |w.threads| && w.threads[e.thread].profile == id)
    || (e.Handle? && w.hand == Handling(RemoveProfile(id)) && id !in w.sessions)
  }

  ghost predicate HasSlot(run: seq<Event>, id: string)
    requires Valid(run)
  {
    run != [] &&
    var w, e := After(run[..|run| - 1]), run[|run| - 1];
    WritesTo(w, e, id) || (!Deletes(w, e, id) && HasSlot(run[..|run| - 1], id))
  }

  lemma SlotStep(w: World, e: Event, id: string)
    requires Enabled(w, e)
    ensures id in Apply(w, e).slots <==> WritesTo(w, e, id) || (!Deletes(w, e, id) && id in w.slots)
  {
  }

  lemma {:induction false} SlotsTellHistory(run: seq<Event>, id: string)
    requires Valid(run)
    ensures id in After(run).slots <==> HasSlot(run, id)
  {
    if run != [] {
      SlotsTellHistory(run[..|run| - 1], id);
      SlotStep(After(run[..|run| - 1]), run[|run| - 1], id);
    }
  }

  // ---- Sessions ------------------------------------------------------------------------------

  /** The supervisor starts a session: a connect for a profile without one, on a server no
      listed session has, and a thread to be had. */
  predicate Starts(w: World, e: Event) {
    && e.Handle? && e.spawned && w.hand.Handling? && w.hand.cmd.Connect?
    && w.hand.cmd.profile !in w.sessions && !ServerHeld(w, w.hand.cmd.server)
  }

  /** A session is listed from its start until a removal takes it out or a receive finds
      its channel closed; nothing else changes the list or adds a thread. */
  lemma SessionListed(w: World, e: Event, id: string)
    requires Inv(w) && Enabled(w, e)
    ensures var v := Apply(w, e);
            && (if Starts(w, e) then |v.threads| == |w.threads| + 1
                                     && v.threads[|w.threads|] == Thread(w.hand.cmd.profile, w.hand.cmd.server, Begun)
                else |v.threads| == |w.threads|)
            && (id in v.sessions <==>
                  || (Starts(w, e) && w.hand.cmd.profile == id)
                  || (id in w.sessions && w.hand != Handling(RemoveProfile(id)) && !e.Receive?)
                  || (id in w.sessions && w.hand == Handling(RemoveProfile(id)) && !e.Handle?)
                  || (id in w.sessions && e.Receive? && IsOpen(w, w.sessions[id])))
            && (id in v.sessions && id in w.sessions ==> v.sessions[id] == w.sessions[id])
            && (id in v.sessions && id !in w.sessions ==> v.sessions[id] == |w.threads|)
  {
  }

  /** A thread keeps its profile and server, and only its own steps change its stage. */
  lemma ThreadSteps(w: World, e: Event, t: nat)
    requires Enabled(w, e) && t < |w.threads|
    ensures var before, after := w.threads[t], Apply(w, e).threads[t];
            && after.profile == before.profile && after.server == before.server
            && (!(e.Act? && e.thread == t) ==> after.stage == before.stage)
  {
  }

  /** The stages in order: a session is refreshed while live, makes its last write after
      its end began, drops its receiver before it signals, or the other way round when its
      runtime failed. */
  predicate Follows(a: Stage, b: Stage) {
    match a
    case Begun => b.Creating? || b.Unbuilt?
    case Creating => b.Live? || b.Finished?
    case Live => b.Live? || b.Closing?
    case Closing => b.Finished?
    case Finished => b.Released?
    case Released => b.Done?
    case Unbuilt => b.Broken?
    case Broken => b.Done?
    case Done => false
  }

  /** The steps a session can take are exactly along that order. */
  lemma StagesInOrder(a: Stage, b: Stage)
    ensures Follows(a, b) <==> exists step :: CanStep(a, step) && NextStage(a, step) == b
  {
    if Follows(a, b) {
      var step := match a
        case Begun => if b.Creating? then Reset else NoRuntime
        case Creating => if b.Live? then Up else Fail
        case Live => if b.Live? then Refresh else End
        case Closing => LastWrite
        case Finished => Release
        case Released => Signal
        case Unbuilt => Signal
        case Broken => DropReceiver
        case Done => Signal;
      assert CanStep(a, step) && NextStage(a, step) == b;
    }
  }

  // ---- Removals --------------------------------------------------------------------------------

  /** A removal deletes its slot once. */
  lemma RemovesOnce(w: World, t: nat)
    requires Enabled(w, Remove(t))
    ensures !Enabled(Apply(w, Remove(t)), Remove(t))
    ensures forall u :: u in w.removers && u != t ==> u in Apply(w, Remove(t)).removers
  {
  }

  /** Removed, and no connect handled since that found it without a session. */
  ghost predicate RemovedLast(run: seq<Event>, id: string)
    requires Valid(run)
  {
    run != [] &&
    var w, e := After(run[..|run| - 1]), run[|run| - 1];
    if e.Handle? && w.hand == Handling(RemoveProfile(id)) then true
    else if e.Handle? && w.hand.Handling? && w.hand.cmd.Connect? && w.hand.cmd.profile == id && id !in w.sessions then false
    else RemovedLast(run[..|run| - 1], id)
  }

  lemma {:induction false} RetiredExactly(run: seq<Event>, id: string)
    requires Valid(run)
    ensures id in After(run).retired <==> RemovedLast(run, id)
  {
    if run != [] {
      RetiredExactly(run[..|run| - 1], id);
    }
  }

  /** So the slot of a profile removed and not connected since is gone once no removal
      waits for its session. */
  lemma RemovedMeansGone(run: seq<Event>, id: string)
    requires Valid(run) && RemovedLast(run, id) && !AwaitsRemoval(After(run), id)
    ensures !HasSlot(run, id)
  {
    RetiredExactly(run, id);
    SlotsTellHistory(run, id);
    RemovedSlotsGo(run, id);
  }
}
