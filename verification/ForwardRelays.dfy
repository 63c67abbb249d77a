/** One forward's accepted connections: two stacks that accept, a channel of one,
    and a loop that starts relays behind a semaphore. */
module ForwardRelays {

  const MAX_ACTIVE_RELAYS_PER_FORWARD := 128
  const CHANNEL_CAPACITY := 1

  // ---- The system ---------------------------------------------------------------------------

  datatype Stack = Unbound | Listening | Holding | Ended

  /** A relay task: spawned with its permit; counted while its guard lives; its
      connection is gone before the guard drops, and the guard before the permit. */
  datatype Relay = Spawned | Counted | Relayed | Uncounted | Finished

  datatype World = World(
    v4: Stack, v6: Stack, channel: nat, inHand: bool,
    relays: seq<Relay>, permits: nat, active: nat)

  const INITIAL_WORLD := World(Unbound, Unbound, 0, false, [], MAX_ACTIVE_RELAYS_PER_FORWARD, 0)

  datatype Event =
    | Bind(isV6: bool)
    | Accept(isV6: bool)
    | Hand(isV6: bool)         // the stack's send gets a channel slot
    | Rebind(isV6: bool)       // the listener died
    | StackEnds(isV6: bool)    // the stack task ended; a held connection drops
    | Receive                  // the loop takes a connection off the channel
    | Acquire                  // ... gets a permit and spawns a relay
    | Count(relay: nat)        // the relay task is first polled
    | Close(relay: nat)        // the relay returns, its connection closed
    | Uncount(relay: nat)
    | Release(relay: nat)
    | Reap(relay: nat)         // the loop joins a finished relay while it waits

  function StackOf(w: World, isV6: bool): Stack {
    if isV6 then w.v6 else w.v4
  }

  function WithStack(w: World, isV6: bool, s: Stack): World {
    if isV6 then w.(v6 := s) else w.(v4 := s)
  }

  predicate At(w: World, relay: nat, phase: Relay) {
    relay < |w.relays| && w.relays[relay] == phase
  }

  predicate Enabled(w: World, e: Event) {
    match e
    case Bind(b) => StackOf(w, b).Unbound?
    case Accept(b) => StackOf(w, b).Listening?
    case Hand(b) => StackOf(w, b).Holding? && w.channel < CHANNEL_CAPACITY
    case Rebind(b) => StackOf(w, b).Listening?
    case StackEnds(b) => !StackOf(w, b).Ended?
    case Receive => !w.inHand && w.channel > 0
    case Acquire => w.inHand && w.permits > 0
    case Count(r) => At(w, r, Spawned)
    case Close(r) => At(w, r, Counted)
    case Uncount(r) => At(w, r, Relayed) && w.active > 0
    case Release(r) => At(w, r, Uncounted)
    case Reap(r) => !w.inHand && At(w, r, Finished)
  }

  function Apply(w: World, e: Event): World
    requires Enabled(w, e)
  {
    match e
    case Bind(b) => WithStack(w, b, Listening)
    case Accept(b) => WithStack(w, b, Holding)
    case Hand(b) => WithStack(w, b, Listening).(channel := w.channel + 1)
    case Rebind(b) => WithStack(w, b, Unbound)
    case StackEnds(b) => WithStack(w, b, Ended)
    case Receive => w.(inHand := true, channel := w.channel - 1)
    case Acquire => w.(inHand := false, permits := w.permits - 1, relays := w.relays + [Spawned])
    case Count(r) => w.(relays := w.relays[r := Counted], active := w.active + 1)
    case Close(r) => w.(relays := w.relays[r := Relayed])
    case Uncount(r) => w.(relays := w.relays[r := Uncounted], active := w.active - 1)
    case Release(r) => w.(relays := w.relays[r := Finished], permits := w.permits + 1)
    case Reap(r) => w.(relays := w.relays[..r] + w.relays[r + 1..])
  }

  ghost predicate Valid(run: seq<Event>)
    decreases |run|, 0
  {
    run == [] || (Valid(run[..|run| - 1]) && Enabled(After(run[..|run| - 1]), run[|run| - 1]))
  }

  ghost function After(run: seq<Event>): World
    requires Valid(run)
    decreases |run|, 1
  {
    if run == [] then INITIAL_WORLD else Apply(After(run[..|run| - 1]), run[|run| - 1])
  }

  // ---- Counting ------------------------------------------------------------------------------

  function CountOf(relays: seq<Relay>, phases: set<Relay>): (n: nat)
    ensures n <= |relays|
  {
    if relays == [] then 0
    else (if relays[0] in phases then 1 else 0) + CountOf(relays[1..], phases)
  }

  const CONNECTED := {Spawned, Counted}
  const COUNTED := {Counted, Relayed}
  const PERMITTED := {Spawned, Counted, Relayed, Uncounted}

  /** Accepted connections held anywhere. */
  function Connections(w: World): nat {
    (if w.v4.Holding? then 1 else 0) + (if w.v6.Holding? then 1 else 0)
    + w.channel + (if w.inHand then 1 else 0) + CountOf(w.relays, CONNECTED)
  }

  lemma {:induction false} CountConcat(a: seq<Relay>, b: seq<Relay>, phases: set<Relay>)
    ensures CountOf(a + b, phases) == CountOf(a, phases) + CountOf(b, phases)
  {
    if a == [] {
      assert a + b == b;
    } else {
      CountConcat(a[1..], b, phases);
      assert (a + b)[1..] == a[1..] + b;
    }
  }

  /** Replacing one relay by a list of them (one, or none). */
  lemma CountReplace(relays: seq<Relay>, r: nat, others: seq<Relay>, phases: set<Relay>)
    requires r < |relays|
    ensures CountOf(relays[..r] + others + relays[r + 1..], phases)
            == CountOf(relays, phases) - CountOf([relays[r]], phases) + CountOf(others, phases)
  {
    var a, x, b := relays[..r], [relays[r]], relays[r + 1..];
    assert relays == a + x + b;
    CountConcat(a + x, b, phases);
    CountConcat(a, x, phases);
    CountConcat(a + others, b, phases);
    CountConcat(a, others, phases);
  }

  lemma CountUpdate(relays: seq<Relay>, r: nat, to: Relay, phases: set<Relay>)
    requires r < |relays|
    ensures CountOf(relays[r := to], phases)
            == CountOf(relays, phases) - (if relays[r] in phases then 1 else 0) + (if to in phases then 1 else 0)
  {
    CountReplace(relays, r, [to], phases);
    assert relays[r := to] == relays[..r] + [to] + relays[r + 1..];
  }

  lemma {:induction false} CountMono(relays: seq<Relay>, p: set<Relay>, q: set<Relay>)
    requires p <= q
    ensures CountOf(relays, p) <= CountOf(relays, q)
  {
    if relays != [] {
      CountMono(relays[1..], p, q);
    }
  }

  // ---- The bound -----------------------------------------------------------------------------

  predicate Inv(w: World) {
    && w.channel <= CHANNEL_CAPACITY
    && w.permits + CountOf(w.relays, PERMITTED) == MAX_ACTIVE_RELAYS_PER_FORWARD
    && w.active == CountOf(w.relays, COUNTED)
  }

  /** A relay's move keeps the invariant when the permits and the active count move
      with the phases that hold them. */
  lemma MoveKeeps(w: World, v: World, r: nat, to: Relay)
    requires Inv(w) && r < |w.relays| && v.relays == w.relays[r := to] && v.channel == w.channel
    requires v.permits + (if to in PERMITTED then 1 else 0) == w.permits + (if w.relays[r] in PERMITTED then 1 else 0)
    requires v.active + (if w.relays[r] in COUNTED then 1 else 0) == w.active + (if to in COUNTED then 1 else 0)
    ensures Inv(v)
  {
    CountUpdate(w.relays, r, to, PERMITTED);
    CountUpdate(w.relays, r, to, COUNTED);
  }

  lemma MembershipKeeps(w: World, e: Event)
    requires Inv(w) && Enabled(w, e) && (e.Acquire? || e.Reap?)
    ensures Inv(Apply(w, e))
  {
    if e.Acquire? {
      CountConcat(w.relays, [Spawned], PERMITTED);
      CountConcat(w.relays, [Spawned], COUNTED);
    } else {
      var r := e.relay;
      CountReplace(w.relays, r, [], PERMITTED);
      CountReplace(w.relays, r, [], COUNTED);
      assert w.relays[..r] + [] == w.relays[..r];
    }
  }

  lemma StepKeeps(w: World, e: Event)
    requires Inv(w) && Enabled(w, e)
    ensures Inv(Apply(w, e))
  {
    match e
    case Acquire => MembershipKeeps(w, e);
    case Reap(r) => MembershipKeeps(w, e);
    case Count(r) => MoveKeeps(w, Apply(w, e), r, Counted);
    case Close(r) => MoveKeeps(w, Apply(w, e), r, Relayed);
    case Uncount(r) => MoveKeeps(w, Apply(w, e), r, Uncounted);
    case Release(r) => MoveKeeps(w, Apply(w, e), r, Finished);
    case _ =>
  }

  lemma {:induction false} RunKeeps(run: seq<Event>)
    requires Valid(run)
    ensures Inv(After(run))
  {
    if run != [] {
      RunKeeps(run[..|run| - 1]);
      StepKeeps(After(run[..|run| - 1]), run[|run| - 1]);
    }
  }

  /** In every run the active count is at most the permits held, so at most 128, and
      the accepted connections held anywhere number at most 132. */
  lemma ConnectionsAreBounded(run: seq<Event>)
    requires Valid(run)
    ensures var w := After(run);
            && w.active <= MAX_ACTIVE_RELAYS_PER_FORWARD - w.permits
            && w.permits <= MAX_ACTIVE_RELAYS_PER_FORWARD
            && Connections(w) <= MAX_ACTIVE_RELAYS_PER_FORWARD + 4
  {
    RunKeeps(run);
    var w := After(run);
    CountMono(w.relays, COUNTED, PERMITTED);
    CountMono(w.relays, CONNECTED, PERMITTED);
  }

  /** The guard's decrement never underflows: a relay about to drop its guard is
      itself counted. */
  lemma UncountIsSafe(run: seq<Event>, r: nat)
    requires Valid(run) && At(After(run), r, Relayed)
    ensures After(run).active > 0 && Enabled(After(run), Uncount(r))
  {
    RunKeeps(run);
    CountReplace(After(run).relays, r, [], COUNTED);
  }

  // ---- The bound is attained -------------------------------------------------------------------

  lemma Extend(run: seq<Event>, e: Event)
    requires Valid(run) && Enabled(After(run), e)
    ensures Valid(run + [e]) && After(run + [e]) == Apply(After(run), e)
  {
    assert (run + [e])[..|run|] == run;
  }

  /** One stack listening, nothing held, this many relays counted. */
  predicate Busy(w: World, n: nat) {
    && w.v4.Listening? && w.v6.Listening? && w.channel == 0 && !w.inHand
    && |w.relays| == n && CountOf(w.relays, CONNECTED) == n && w.active == n
    && n + w.permits == MAX_ACTIVE_RELAYS_PER_FORWARD
  }

  lemma OneMore(run: seq<Event>, n: nat) returns (longer: seq<Event>)
    requires Valid(run) && Busy(After(run), n) && n < MAX_ACTIVE_RELAYS_PER_FORWARD
    ensures Valid(longer) && Busy(After(longer), n + 1)
  {
    Extend(run, Accept(false));
    longer := run + [Accept(false)];
    Extend(longer, Hand(false));
    longer := longer + [Hand(false)];
    Extend(longer, Receive);
    longer := longer + [Receive];
    Extend(longer, Acquire);
    longer := longer + [Acquire];
    CountConcat(After(run).relays, [Spawned], CONNECTED);
    CountUpdate(After(longer).relays, n, Counted, CONNECTED);
    Extend(longer, Count(n));
    longer := longer + [Count(n)];
  }

  lemma {:induction false} Fill(n: nat) returns (run: seq<Event>)
    requires n <= MAX_ACTIVE_RELAYS_PER_FORWARD
    ensures Valid(run) && Busy(After(run), n)
  {
    if n == 0 {
      Extend([], Bind(false));
      Extend([] + [Bind(false)], Bind(true));
      run := [] + [Bind(false)] + [Bind(true)];
    } else {
      run := Fill(n - 1);
      run := OneMore(run, n - 1);
    }
  }

  lemma BoundIsAttained() returns (run: seq<Event>)
    ensures Valid(run)
    ensures After(run).active == MAX_ACTIVE_RELAYS_PER_FORWARD
    ensures Connections(After(run)) == MAX_ACTIVE_RELAYS_PER_FORWARD + 4
  {
    run := Fill(MAX_ACTIVE_RELAYS_PER_FORWARD);
    run := PileUp(run);
  }

  lemma PileUp(run: seq<Event>) returns (longer: seq<Event>)
    requires Valid(run) && Busy(After(run), MAX_ACTIVE_RELAYS_PER_FORWARD)
    ensures Valid(longer)
    ensures After(longer).active == MAX_ACTIVE_RELAYS_PER_FORWARD
    ensures Connections(After(longer)) == MAX_ACTIVE_RELAYS_PER_FORWARD + 4
  {
    longer := run;
    longer := Push(longer, Accept(false));
    longer := Push(longer, Hand(false));
    longer := Push(longer, Receive);
    longer := Push(longer, Accept(false));
    longer := Push(longer, Hand(false));
    longer := Push(longer, Accept(false));
    longer := Push(longer, Accept(true));
  }

  lemma Push(run: seq<Event>, e: Event) returns (longer: seq<Event>)
    requires Valid(run) && Enabled(After(run), e)
    ensures Valid(longer) && After(longer) == Apply(After(run), e)
  {
    Extend(run, e);
    longer := run + [e];
  }
}
