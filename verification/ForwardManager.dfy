/** Reconciling listener tasks with a desired set of forwards. */
module ForwardManager {
  import opened Options
  import opened Records

  datatype ForwardSpec = ForwardSpec(id: string, localPort: Port, remoteHost: string, remotePort: Port)

  /** A running listener task; the handle is its identity. */
  datatype Task = Task(spec: ForwardSpec, handle: nat)

  type Tasks = map<string, Task>

  // ---- What reconciling means --------------------------------------------------------------

  predicate Mentions(forwards: seq<ForwardSpec>, id: string) {
    exists i :: 0 <= i < |forwards| && forwards[i].id == id
  }

  /** Collecting into a map keeps the last spec of an id. */
  function Last(forwards: seq<ForwardSpec>, id: string): Option<ForwardSpec> {
    if forwards == [] then None
    else if forwards[|forwards| - 1].id == id then Some(forwards[|forwards| - 1])
    else Last(forwards[..|forwards| - 1], id)
  }

  /** Starting what is missing takes the first spec of an id. */
  function First(forwards: seq<ForwardSpec>, id: string): Option<ForwardSpec> {
    if forwards == [] then None
    else if First(forwards[..|forwards| - 1], id).Some? then First(forwards[..|forwards| - 1], id)
    else if forwards[|forwards| - 1].id == id then Some(forwards[|forwards| - 1])
    else None
  }

  predicate UniqueIds(forwards: seq<ForwardSpec>) {
    forall i, j :: 0 <= i < j < |forwards| ==> forwards[i].id != forwards[j].id
  }

  predicate Unchanged(tasks: Tasks, forwards: seq<ForwardSpec>, id: string) {
    id in tasks && Last(forwards, id) == Some(tasks[id].spec)
  }

  function Retained(tasks: Tasks, forwards: seq<ForwardSpec>): Tasks {
    map id | id in tasks && Unchanged(tasks, forwards, id) :: tasks[id]
  }

  /** The retained tasks plus one fresh task per id that has none, in order. */
  function Started(tasks: Tasks, forwards: seq<ForwardSpec>, nextHandle: nat): (Tasks, nat) {
    if forwards == [] then (tasks, nextHandle)
    else
      var (before, next) := Started(tasks, forwards[..|forwards| - 1], nextHandle);
      var spec := forwards[|forwards| - 1];
      if spec.id in before then (before, next) else (before[spec.id := Task(spec, next)], next + 1)
  }

  function Reconciled(tasks: Tasks, forwards: seq<ForwardSpec>, nextHandle: nat): (Tasks, nat) {
    Started(Retained(tasks, forwards), forwards, nextHandle)
  }

  function Aborted(tasks: Tasks, forwards: seq<ForwardSpec>): set<nat> {
    set id | id in tasks && !Unchanged(tasks, forwards, id) :: tasks[id].handle
  }

  /** Handles are unique and all below the next one. */
  predicate ValidTasks(tasks: Tasks, nextHandle: nat) {
    && (forall id :: id in tasks ==> tasks[id].spec.id == id && tasks[id].handle < nextHandle)
    && (forall a, b :: a in tasks && b in tasks && tasks[a].handle == tasks[b].handle ==> a == b)
  }

  // ---- The manager -------------------------------------------------------------------------

  class Manager {
    var tasks: Tasks
    var nextHandle: nat
    var aborted: set<nat>

    constructor (forwards: seq<ForwardSpec>)
      ensures (tasks, nextHandle) == Reconciled(map[], forwards, 0) && aborted == {}
      ensures ValidTasks(tasks, nextHandle)
    {
      tasks, nextHandle, aborted := map[], 0, {};
      new;
      ApplyForwards(forwards);
    }

    method ApplyForwards(forwards: seq<ForwardSpec>)
      requires ValidTasks(tasks, nextHandle)
      modifies this
      ensures (tasks, nextHandle) == Reconciled(old(tasks), forwards, old(nextHandle))
      ensures aborted == old(aborted) + Aborted(old(tasks), forwards)
      ensures ValidTasks(tasks, nextHandle)
    {
      RetainDesired(forwards);
      StartMissing(forwards);
      ReconciledIsValid(old(tasks), forwards, old(nextHandle));
    }

    method RetainDesired(forwards: seq<ForwardSpec>)
      modifies `tasks, `aborted
      ensures tasks == Retained(old(tasks), forwards)
      ensures aborted == old(aborted) + Aborted(old(tasks), forwards)
    {
      var desired := Collect(forwards);
      ghost var before := tasks;
      ghost var done: set<string> := {};
      var ids := tasks.Keys;
      while ids != {}
        invariant ids + done == before.Keys && ids !! done
        invariant tasks == Sifted(before, forwards, done)
        invariant aborted == old(aborted) + Dropped(before, forwards, done)
        decreases ids
      {
        var id :| id in ids;
        ids := ids - {id};
        if !(id in desired && desired[id] == tasks[id].spec) {
          aborted := aborted + {tasks[id].handle};
          tasks := tasks - {id};
        }
        done := done + {id};
      }
    }

    method StartMissing(forwards: seq<ForwardSpec>)
      modifies `tasks, `nextHandle
      ensures (tasks, nextHandle) == Started(old(tasks), forwards, old(nextHandle))
    {
      for i := 0 to |forwards|
        invariant (tasks, nextHandle) == Started(old(tasks), forwards[..i], old(nextHandle))
      {
        assert forwards[..i + 1][..i] == forwards[..i];
        if forwards[i].id !in tasks {
          tasks := tasks[forwards[i].id := Task(forwards[i], nextHandle)];
          nextHandle := nextHandle + 1;
        }
      }
      assert forwards[..|forwards|] == forwards;
    }
  }

  /** The tasks left, and the handles aborted, once these ids have been looked at. */
  ghost function Sifted(tasks: Tasks, forwards: seq<ForwardSpec>, done: set<string>): Tasks {
    map id | id in tasks && (id !in done || Unchanged(tasks, forwards, id)) :: tasks[id]
  }

  ghost function Dropped(tasks: Tasks, forwards: seq<ForwardSpec>, done: set<string>): set<nat> {
    set id | id in tasks && id in done && !Unchanged(tasks, forwards, id) :: tasks[id].handle
  }

  method Collect(forwards: seq<ForwardSpec>) returns (desired: map<string, ForwardSpec>)
    ensures forall id :: (if id in desired then Some(desired[id]) else None) == Last(forwards, id)
  {
    desired := map[];
    for i := 0 to |forwards|
      invariant forall id :: (if id in desired then Some(desired[id]) else None) == Last(forwards[..i], id)
    {
      assert forwards[..i + 1][..i] == forwards[..i];
      desired := desired[forwards[i].id := forwards[i]];
    }
    assert forwards[..|forwards|] == forwards;
  }

  // ---- Exactness -----------------------------------------------------------------------------

  /** The outcome, id by id: kept as it was, or fresh with the first spec. */
  lemma {:induction false} StartedExact(tasks: Tasks, forwards: seq<ForwardSpec>, nextHandle: nat, id: string)
    ensures var (after, next) := Started(tasks, forwards, nextHandle);
            && next >= nextHandle
            && (id in after <==> id in tasks || First(forwards, id).Some?)
            && (id in tasks ==> after[id] == tasks[id])
            && (id in after && id !in tasks ==> Some(after[id].spec) == First(forwards, id)
                                                && nextHandle <= after[id].handle < next)
  {
    if forwards != [] {
      StartedExact(tasks, forwards[..|forwards| - 1], nextHandle, id);
      StartedExact(tasks, forwards[..|forwards| - 1], nextHandle, forwards[|forwards| - 1].id);
    }
  }

  lemma {:induction false} FirstExact(forwards: seq<ForwardSpec>, id: string)
    ensures First(forwards, id).Some? <==> Mentions(forwards, id)
    ensures First(forwards, id).Some? ==> First(forwards, id).value in forwards && First(forwards, id).value.id == id
  {
    if forwards != [] {
      FirstExact(forwards[..|forwards| - 1], id);
      var last := |forwards| - 1;
      assert forall i :: 0 <= i < last ==> forwards[..last][i] == forwards[i];
      if Mentions(forwards, id) && forwards[last].id != id {
        var i :| 0 <= i < |forwards| && forwards[i].id == id;
        assert forwards[..last][i].id == id;
      }
    }
  }

  lemma {:induction false} LastExact(forwards: seq<ForwardSpec>, id: string)
    ensures Last(forwards, id).Some? <==> First(forwards, id).Some?
    ensures Last(forwards, id).Some? ==> Last(forwards, id).value in forwards && Last(forwards, id).value.id == id
  {
    if forwards != [] {
      LastExact(forwards[..|forwards| - 1], id);
    }
  }

  lemma UniqueSpec(forwards: seq<ForwardSpec>, a: ForwardSpec, b: ForwardSpec)
    requires UniqueIds(forwards) && a in forwards && b in forwards && a.id == b.id
    ensures a == b
  {
    var i :| 0 <= i < |forwards| && forwards[i] == a;
    var j :| 0 <= j < |forwards| && forwards[j] == b;
  }

  lemma ReconciledIsValid(tasks: Tasks, forwards: seq<ForwardSpec>, nextHandle: nat)
    requires ValidTasks(tasks, nextHandle)
    ensures var (after, next) := Reconciled(tasks, forwards, nextHandle); ValidTasks(after, next)
  {
    StartedIsValid(Retained(tasks, forwards), forwards, nextHandle);
  }

  lemma {:induction false} StartedIsValid(tasks: Tasks, forwards: seq<ForwardSpec>, nextHandle: nat)
    requires ValidTasks(tasks, nextHandle)
    ensures var (after, next) := Started(tasks, forwards, nextHandle); ValidTasks(after, next)
  {
    if forwards != [] {
      StartedIsValid(tasks, forwards[..|forwards| - 1], nextHandle);
    }
  }

  /** For a desired set with unique ids: exactly one task per desired spec; an
      unchanged spec keeps its very task, any other gets a task with a handle never
      used before; and the handles aborted are exactly those not kept. */
  lemma ReconcileExact(tasks: Tasks, forwards: seq<ForwardSpec>, nextHandle: nat, id: string)
    requires UniqueIds(forwards) && ValidTasks(tasks, nextHandle)
    ensures var (after, next) := Reconciled(tasks, forwards, nextHandle);
            && (id in after <==> Mentions(forwards, id))
            && (id in after ==>
                  && after[id].spec in forwards && after[id].spec.id == id
                  && (after[id].handle < nextHandle <==> id in tasks && tasks[id].spec == after[id].spec)
                  && (after[id].handle < nextHandle ==> after[id] == tasks[id]))
            && (id in tasks ==> (tasks[id].handle in Aborted(tasks, forwards) <==> tasks[id].spec !in forwards))
  {
    StartedExact(Retained(tasks, forwards), forwards, nextHandle, id);
    FirstExact(forwards, id);
    LastExact(forwards, id);
    if First(forwards, id).Some? {
      UniqueSpec(forwards, First(forwards, id).value, Last(forwards, id).value);
    }
    if id in tasks && tasks[id].spec in forwards {
      FirstExact(forwards, id);
      assert Mentions(forwards, id);
      UniqueSpec(forwards, tasks[id].spec, Last(forwards, id).value);
    }
  }

  // ---- Applying twice ------------------------------------------------------------------------

  /** The id either keeps its task or starts with the spec it would be kept for. */
  predicate Stable(tasks: Tasks, forwards: seq<ForwardSpec>, id: string) {
    Unchanged(tasks, forwards, id) || First(forwards, id) == Last(forwards, id)
  }

  lemma StableExact(tasks: Tasks, forwards: seq<ForwardSpec>, nextHandle: nat, id: string)
    requires First(forwards, id).Some?
    ensures var (after, next) := Reconciled(tasks, forwards, nextHandle);
            id in after && (Unchanged(after, forwards, id) <==> Stable(tasks, forwards, id))
  {
    StartedExact(Retained(tasks, forwards), forwards, nextHandle, id);
  }

  /** Applying the same list again changes nothing if and only if no id that is
      not kept is listed first with one spec and last with another; otherwise its
      task is aborted and restarted every time. */
  lemma ApplyTwice(tasks: Tasks, forwards: seq<ForwardSpec>, nextHandle: nat)
    ensures var (after, next) := Reconciled(tasks, forwards, nextHandle);
            Reconciled(after, forwards, next) == (after, next)
            <==> forall id :: Mentions(forwards, id) ==> Stable(tasks, forwards, id)
  {
    var (after, next) := Reconciled(tasks, forwards, nextHandle);
    var kept := Retained(after, forwards);
    forall id ensures id in after <==> Mentions(forwards, id) {
      StartedExact(Retained(tasks, forwards), forwards, nextHandle, id);
      FirstExact(forwards, id);
      LastExact(forwards, id);
    }
    forall id | Mentions(forwards, id)
      ensures Unchanged(after, forwards, id) <==> Stable(tasks, forwards, id)
    {
      FirstExact(forwards, id);
      StableExact(tasks, forwards, nextHandle, id);
    }
    if forall id :: Mentions(forwards, id) ==> Stable(tasks, forwards, id) {
      assert kept == after;
      NothingToStart(after, forwards, next);
    } else {
      var id :| Mentions(forwards, id) && !Stable(tasks, forwards, id);
      StartedExact(kept, forwards, next, id);
      StartedExact(Retained(tasks, forwards), forwards, nextHandle, id);
      FirstExact(forwards, id);
      assert id in after && id !in kept;
    }
  }

  lemma {:induction false} NothingToStart(tasks: Tasks, forwards: seq<ForwardSpec>, nextHandle: nat)
    requires forall id :: Mentions(forwards, id) ==> id in tasks
    ensures Started(tasks, forwards, nextHandle) == (tasks, nextHandle)
  {
    if forwards != [] {
      var last := |forwards| - 1;
      assert Mentions(forwards, forwards[last].id);
      forall id | Mentions(forwards[..last], id) ensures id in tasks {
        var i :| 0 <= i < last && forwards[..last][i].id == id;
        assert forwards[i].id == id;
      }
      NothingToStart(tasks, forwards[..last], nextHandle);
    }
  }

  /** Two specs of one id: every pass over them aborts its task and starts another. */
  lemma ApplyTwiceRestarts(a: ForwardSpec, b: ForwardSpec, nextHandle: nat)
    requires a.id == b.id && a != b
    ensures var (after, next) := Reconciled(map[], [a, b], nextHandle);
            && a.id in after && after[a.id].handle in Aborted(after, [a, b])
            && Reconciled(after, [a, b], next) != (after, next)
  {
    var both := [a, b];
    assert both[..1] == [a] && First([a], a.id) == Some(a);
    assert First(both, a.id) == Some(a) && Last(both, a.id) == Some(b);
    assert both[0].id == a.id && Mentions(both, a.id) && !Stable(map[], both, a.id);
    StableExact(map[], both, nextHandle, a.id);
    ApplyTwice(map[], both, nextHandle);
  }
}
