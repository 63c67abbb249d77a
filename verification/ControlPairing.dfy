/** Requests and responses over the control channel: a client that discards its
    connection on a timeout but keeps it on every other error, against servers
    that answer each request line with one response line. Bytes on the wire carry
    the request they answer, so that pairing can be stated. */
module ControlPairing {
  import opened Options
  import opened ControlLine

  // ---- The system ------------------------------------------------------------------------

  /** A byte sent by a server, tagged with the request it answers. */
  datatype Cell = Cell(c: char, owner: nat)

  function Chars(cells: seq<Cell>): (s: string)
    ensures |s| == |cells| && forall i :: 0 <= i < |cells| ==> s[i] == cells[i].c
  {
    seq(|cells|, i requires 0 <= i < |cells| => cells[i].c)
  }

  function Tag(text: string, owner: nat): (cells: seq<Cell>)
    ensures |cells| == |text| && forall i :: 0 <= i < |text| ==> cells[i] == Cell(text[i], owner)
  {
    seq(|text|, i requires 0 <= i < |text| => Cell(text[i], owner))
  }

  /** One connection: the requests whose line reached the server, in order, how
      many of them it has answered, and what the client has not read yet. */
  datatype Conn = Conn(asked: seq<nat>, answered: nat, wire: seq<Cell>, closed: bool)

  datatype Phase = Idle | Connecting(id: nat) | Writing(id: nat) | Reading(id: nat)

  /** `returned` is what calls of `request` gave their callers, as (request, line). */
  datatype World = World(
    stream: Option<nat>, phase: Phase, nextId: nat, conns: seq<Conn>, returned: seq<(nat, seq<Cell>)>)

  const INITIAL_WORLD := World(Some(0), Idle, 0, [Conn([], 0, [], false)], [])

  datatype Event =
    | Begin
    | Reconnected
    | ReconnectFailed
    | Wrote
    | WriteFailed
    | TimedOut
    | Read(parses: bool)                          // the response line decodes, or not
    | ReadFailed(eaten: nat)                      // an I/O error, part of a line read
    | Answer(conn: nat, text: string)
    | AnswerCut(conn: nat, text: string, sent: nat)  // part of an answer, then closed
    | Close(conn: nat)

  predicate CanAnswer(w: World, i: nat, text: string) {
    i < |w.conns| && !w.conns[i].closed && w.conns[i].answered < |w.conns[i].asked| && '\n' !in text
  }

  function NextRead(w: World): LineRead
    requires w.stream.Some? && w.stream.value < |w.conns|
  {
    var c := w.conns[w.stream.value];
    ReadLine(Chars(c.wire), c.closed)
  }

  predicate Enabled(w: World, e: Event) {
    match e
    case Begin => w.phase.Idle?
    case Reconnected => w.phase.Connecting?
    case ReconnectFailed => w.phase.Connecting?
    case Wrote => w.phase.Writing? && w.stream.Some? && w.stream.value < |w.conns|
    case WriteFailed => w.phase.Writing?
    case TimedOut => w.phase.Writing? || w.phase.Reading?
    case Read(_) =>
      w.phase.Reading? && w.stream.Some? && w.stream.value < |w.conns| && !NextRead(w).Pending?
    case ReadFailed(eaten) =>
      && w.phase.Reading? && w.stream.Some? && w.stream.value < |w.conns|
      && eaten <= |w.conns[w.stream.value].wire| && eaten <= MAX_LINE
      && '\n' !in Chars(w.conns[w.stream.value].wire[..eaten])
    case Answer(i, text) => CanAnswer(w, i, text)
    case AnswerCut(i, text, sent) => CanAnswer(w, i, text) && sent <= |text|
    case Close(i) => i < |w.conns|
  }

  function WithConn(w: World, i: nat, c: Conn): World
    requires i < |w.conns|
  {
    w.(conns := w.conns[i := c])
  }

  function Apply(w: World, e: Event): World
    requires Enabled(w, e)
  {
    match e
    case Begin =>
      w.(phase := if w.stream.None? then Connecting(w.nextId) else Writing(w.nextId), nextId := w.nextId + 1)
    case Reconnected =>
      w.(phase := Writing(w.phase.id), stream := Some(|w.conns|), conns := w.conns + [Conn([], 0, [], false)])
    case ReconnectFailed => w.(phase := Idle)
    case Wrote =>
      var c := w.conns[w.stream.value];
      WithConn(w, w.stream.value, c.(asked := c.asked + [w.phase.id])).(phase := Reading(w.phase.id))
    case WriteFailed => w.(phase := Idle)
    case TimedOut => w.(phase := Idle, stream := None)
    case Read(parses) =>
      var c := w.conns[w.stream.value];
      var n := NextRead(w).consumed;
      ReadsOneLine(Chars(c.wire), c.closed);
      var w' := WithConn(w, w.stream.value, c.(wire := c.wire[n..])).(phase := Idle);
      if NextRead(w).Line? && n > 0 && parses then w'.(returned := w.returned + [(w.phase.id, c.wire[..n])]) else w'
    case ReadFailed(eaten) =>
      var c := w.conns[w.stream.value];
      WithConn(w, w.stream.value, c.(wire := c.wire[eaten..])).(phase := Idle)
    case Answer(i, text) =>
      var c := w.conns[i];
      WithConn(w, i, c.(answered := c.answered + 1, wire := c.wire + Tag(text + "\n", c.asked[c.answered])))
    case AnswerCut(i, text, sent) =>
      var c := w.conns[i];
      WithConn(w, i, c.(wire := c.wire + Tag(text[..sent], c.asked[c.answered]), closed := true))
    case Close(i) => WithConn(w, i, w.conns[i].(closed := true))
  }

  ghost predicate Valid(run: seq<Event>)
    decreases |run|, 0
  {
    run == [] || (Valid(run[..|run| - 1]) && Enabled(After(run[..|run| - 1]), run[|run| - 1]))
  }

  ghost function After(run: seq<Event>): World
    requires Valid(run)
    decreases |run|, 1
  {
    if run == [] then INITIAL_WORLD else Apply(After(run[..|run| - 1]), run[|run| - 1])
  }

  // ---- Pairing -----------------------------------------------------------------------------

  predicate Owned(cells: seq<Cell>, id: nat) {
    forall i :: 0 <= i < |cells| ==> cells[i].owner == id
  }

  /** At most one line, by one request, within the cap. */
  predicate OneLine(cells: seq<Cell>, id: nat) {
    && Owned(cells, id)
    && (|cells| <= MAX_LINE || (|cells| == MAX_LINE + 1 && cells[MAX_LINE].c == '\n'))
    && forall i :: 0 <= i < |cells| - 1 ==> cells[i].c != '\n'
  }

  /** What a closed connection may be left with and never hand out: whole caps' worth of
      bytes without a line end, each refused as over the cap. */
  predicate Barren(cells: seq<Cell>) {
    |cells| % (MAX_LINE + 1) == 0 && forall i :: 0 <= i < |cells| ==> cells[i].c != '\n'
  }

  predicate Settled(c: Conn) {
    && c.answered <= |c.asked|
    && if c.closed then Barren(c.wire) else c.wire == [] && c.answered == |c.asked|
  }

  /** A response is awaited on the connection: not sent yet, sent whole, or cut
      short by the server's end. */
  predicate Awaiting(c: Conn, id: nat) {
    && c.asked != [] && c.asked[|c.asked| - 1] == id && c.answered <= |c.asked|
    && if c.closed then Barren(c.wire) || OneLine(c.wire, id)
       else
         && OneLine(c.wire, id)
         && (|| (c.wire == [] && c.answered == |c.asked| - 1)
             || (c.wire != [] && c.wire[|c.wire| - 1].c == '\n' && c.answered == |c.asked|))
  }

  /** Only requests made so far are asked and answered on the connection. */
  predicate Known(c: Conn, nextId: nat) {
    && (forall i :: 0 <= i < |c.asked| ==> c.asked[i] < nextId)
    && (forall i :: 0 <= i < |c.wire| ==> c.wire[i].owner < nextId)
  }

  predicate Inv(w: World) {
    && (w.phase.Connecting? ==> w.stream.None?)
    && (w.phase.Writing? || w.phase.Reading? ==> w.stream.Some?)
    && (!w.phase.Idle? ==> w.phase.id < w.nextId)
    && (w.stream.Some? ==>
          && w.stream.value < |w.conns|
          && Known(w.conns[w.stream.value], w.nextId)
          && if w.phase.Reading? then Awaiting(w.conns[w.stream.value], w.phase.id)
             else Settled(w.conns[w.stream.value]))
  }

  predicate Paired(w: World) {
    forall i :: 0 <= i < |w.returned| ==> Owned(w.returned[i].1, w.returned[i].0)
  }

  /** The response lines stay within the cap. */
  predicate Fits(e: Event) {
    (e.Answer? || e.AnswerCut?) ==> |e.text| <= MAX_LINE
  }

  /** An event after which a later request can be handed bytes of an earlier answer: on
      the connection in use, a response over the cap, or a read that fails with part of
      the answer left or still to come. */
  predicate Harms(w: World, e: Event) {
    match e
    case Answer(i, text) => w.stream == Some(i) && |text| > MAX_LINE
    case AnswerCut(i, text, sent) => w.stream == Some(i) && sent > MAX_LINE && sent % (MAX_LINE + 1) != 0
    case ReadFailed(eaten) =>
      && w.stream.Some? && w.stream.value < |w.conns|
      && var c := w.conns[w.stream.value];
         eaten <= |c.wire| && !(c.closed && Barren(c.wire[eaten..]))
    case _ => false
  }

  lemma ModuloDown(n: nat)
    requires n >= MAX_LINE + 1
    ensures (n - (MAX_LINE + 1)) % (MAX_LINE + 1) == n % (MAX_LINE + 1)
  {
  }

  lemma AnswerKeeps(w: World, e: Event)
    requires Inv(w) && Enabled(w, e) && !Harms(w, e) && (e.Answer? || e.AnswerCut?)
    ensures Inv(Apply(w, e))
  {
  }

  lemma ReadAwaited(c: Conn, id: nat)
    requires Awaiting(c, id) && !ReadLine(Chars(c.wire), c.closed).Pending?
    ensures var r := ReadLine(Chars(c.wire), c.closed);
            && r.consumed <= |c.wire|
            && (r.Line? ==> r.consumed == |c.wire| && OneLine(c.wire, id))
            && (r.OverCap? ==> c.closed && Barren(c.wire[r.consumed..]))
  {
    ReadsOneLine(Chars(c.wire), c.closed);
    if |c.wire| >= MAX_LINE + 1 {
      ModuloDown(|c.wire|);
    }
  }

  lemma ReadKeeps(w: World, e: Event)
    requires Inv(w) && Paired(w) && Enabled(w, e) && e.Read?
    ensures Inv(Apply(w, e)) && Paired(Apply(w, e))
  {
    var c := w.conns[w.stream.value];
    ReadAwaited(c, w.phase.id);
    assert c.wire[..|c.wire|] == c.wire;
  }

  lemma ReadFailedKeeps(w: World, e: Event)
    requires Inv(w) && Paired(w) && Enabled(w, e) && !Harms(w, e) && e.ReadFailed?
    ensures Inv(Apply(w, e)) && Paired(Apply(w, e))
  {
  }

  lemma StepKeeps(w: World, e: Event)
    requires Inv(w) && Paired(w) && Enabled(w, e) && !Harms(w, e)
    ensures Inv(Apply(w, e)) && Paired(Apply(w, e))
  {
    if e.Answer? || e.AnswerCut? {
      AnswerKeeps(w, e);
    } else if e.Read? {
      ReadKeeps(w, e);
    } else if e.ReadFailed? {
      ReadFailedKeeps(w, e);
    }
  }

  /** No event of the run does harm. */
  ghost predicate Harmless(run: seq<Event>)
    requires Valid(run)
  {
    run == [] || (Harmless(run[..|run| - 1]) && !Harms(After(run[..|run| - 1]), run[|run| - 1]))
  }

  /** In every run without harm, with timeouts, failures and server ends at arbitrary
      points, every byte a request returns answers that request. */
  lemma {:induction false} ResponsesArePaired(run: seq<Event>)
    requires Valid(run) && Harmless(run)
    ensures Inv(After(run)) && Paired(After(run))
  {
    if run != [] {
      ResponsesArePaired(run[..|run| - 1]);
      StepKeeps(After(run[..|run| - 1]), run[|run| - 1]);
    }
  }

  /** In particular when every response fits the cap and no read fails. */
  lemma {:induction false} FittingRunsAreHarmless(run: seq<Event>)
    requires Valid(run) && forall k :: 0 <= k < |run| ==> Fits(run[k]) && !run[k].ReadFailed?
    ensures Harmless(run)
  {
    if run != [] {
      FittingRunsAreHarmless(run[..|run| - 1]);
    }
  }

  // ---- One line over the cap -----------------------------------------------------------------

  predicate StepAt(ws: seq<World>, events: seq<Event>, i: nat) {
    i < |events| && i + 1 < |ws| && Enabled(ws[i], events[i]) && ws[i + 1] == Apply(ws[i], events[i])
  }

  predicate Trace(ws: seq<World>, events: seq<Event>) {
    |ws| == |events| + 1 && forall i :: 0 <= i < |events| ==> StepAt(ws, events, i)
  }

  /** The events lead from one world to the other. */
  ghost predicate Leads(w: World, events: seq<Event>, w': World) {
    exists ws :: Trace(ws, events) && ws[0] == w && ws[|events|] == w'
  }

  lemma {:induction false} TraceIsRun(ws: seq<World>, events: seq<Event>, k: nat)
    requires Trace(ws, events) && ws[0] == INITIAL_WORLD && k <= |events|
    ensures Valid(events[..k]) && After(events[..k]) == ws[k]
    decreases k
  {
    if k > 0 {
      TraceIsRun(ws, events, k - 1);
      assert StepAt(ws, events, k - 1);
      assert events[..k][..k - 1] == events[..k - 1];
    }
  }

  /** Events that lead on from the initial world are a run. */
  lemma LeadsIsRun(events: seq<Event>, w': World)
    requires Leads(INITIAL_WORLD, events, w')
    ensures Valid(events) && After(events) == w'
  {
    var ws :| Trace(ws, events) && ws[0] == INITIAL_WORLD && ws[|events|] == w';
    TraceIsRun(ws, events, |events|);
    assert events[..|events|] == events;
  }

  /** The client is idle on connection 0 and everything it asked is answered, yet
      bytes are left: `junk` of them that end a line, then perhaps the answer "x"
      to an earlier request. */
  predicate Behind(w: World, junk: nat) {
    && w.phase.Idle? && w.stream == Some(0) && |w.conns| > 0
    && var c := w.conns[0];
       && !c.closed && c.answered == |c.asked|
       && JunkThenAnswers(c.wire, w.nextId, junk)
  }

  /** Some caller was handed the whole answer "x" to an earlier request. */
  predicate Stale(w: World) {
    exists i :: 0 <= i < |w.returned| && exists o: nat :: o < w.returned[i].0 && w.returned[i].1 == Tag("x\n", o)
  }

  lemma TraceConcat(xs: seq<World>, a: seq<Event>, ys: seq<World>, b: seq<Event>)
    requires Trace(xs, a) && Trace(ys, b) && xs[|a|] == ys[0]
    ensures Trace(xs + ys[1..], a + b) && (xs + ys[1..])[|a + b|] == ys[|b|]
  {
    var ws := xs + ys[1..];
    forall i | 0 <= i < |a + b| ensures StepAt(ws, a + b, i) {
      if i < |a| {
        assert StepAt(xs, a, i);
      } else {
        assert StepAt(ys, b, i - |a|);
      }
    }
  }

  lemma LeadsTrans(w: World, a: seq<Event>, w': World, b: seq<Event>, w'': World)
    requires Leads(w, a, w') && Leads(w', b, w'')
    ensures Leads(w, a + b, w'')
  {
    var xs :| Trace(xs, a) && xs[0] == w && xs[|a|] == w';
    var ys :| Trace(ys, b) && ys[0] == w' && ys[|b|] == w'';
    TraceConcat(xs, a, ys, b);
  }

  lemma Leads1(w: World, e: Event)
    requires Enabled(w, e)
    ensures Leads(w, [e], Apply(w, e))
  {
    var ws := [w, Apply(w, e)];
    assert StepAt(ws, [e], 0);
    assert Trace(ws, [e]);
  }

  function Asking(text: string): seq<Event> {
    [Begin, Wrote, Answer(0, text)]
  }

  /** A request is sent and answered behind what is on the wire. */
  lemma Ask(w: World, text: string) returns (w': World)
    requires w.phase.Idle? && w.stream == Some(0) && |w.conns| > 0 && '\n' !in text
    requires !w.conns[0].closed && w.conns[0].answered == |w.conns[0].asked|
    ensures Leads(w, Asking(text), w')
    ensures w'.phase == Reading(w.nextId) && w'.stream == Some(0) && w'.nextId == w.nextId + 1
    ensures w'.returned == w.returned && |w'.conns| == |w.conns|
    ensures w'.conns[0] == Conn(w.conns[0].asked + [w.nextId], w.conns[0].answered + 1,
                                w.conns[0].wire + Tag(text + "\n", w.nextId), false)
  {
    var w1 := Apply(w, Begin);
    var w2 := Apply(w1, Wrote);
    w' := Apply(w2, Answer(0, text));
    Leads1(w, Begin);
    Leads1(w1, Wrote);
    Leads1(w2, Answer(0, text));
    LeadsTrans(w, [Begin], w1, [Wrote], w2);
    LeadsTrans(w, [Begin] + [Wrote], w2, [Answer(0, text)], w');
    assert [Begin] + [Wrote] + [Answer(0, text)] == Asking(text);
  }

  /** A read that takes the first `n` bytes off the wire. */
  lemma Take(w: World, text: string, w1: World, parses: bool) returns (w': World)
    requires Leads(w, Asking(text), w1)
    requires w1.phase.Reading? && w1.stream == Some(0) && |w1.conns| > 0 && !NextRead(w1).Pending?
    ensures Leads(w, Asking(text) + [Read(parses)], w')
    ensures var n := NextRead(w1).consumed;
            && n <= |w1.conns[0].wire|
            && w'.phase.Idle? && w'.stream == Some(0) && w'.nextId == w1.nextId && |w'.conns| == |w1.conns|
            && w'.conns[0] == w1.conns[0].(wire := w1.conns[0].wire[n..])
            && (NextRead(w1).Line? && n > 0 && parses ==>
                  w'.returned == w1.returned + [(w1.phase.id, w1.conns[0].wire[..n])])
  {
    w' := Apply(w1, Read(parses));
    ReadsOneLine(Chars(w1.conns[0].wire), w1.conns[0].closed);
    Leads1(w1, Read(parses));
    LeadsTrans(w, Asking(text), w1, [Read(parses)], w');
  }

  lemma FrontRead(wire: seq<Cell>, answer: seq<Cell>, junk: nat)
    requires 0 < junk <= |wire| && wire[junk - 1].c == '\n'
    ensures var r := ReadLine(Chars(wire + answer), false); !r.Pending? && 0 < r.consumed <= junk
  {
    var s := Chars(wire + answer);
    assert s[junk - 1] == '\n';
    ReadsOneLine(s, false);
  }

  /** With junk in front, a round only eats junk, and the client stays behind. */
  lemma EatJunk(w: World, junk: nat) returns (w': World, less: nat)
    requires Behind(w, junk) && junk > 0
    ensures Leads(w, Asking("x") + [Read(false)], w') && Behind(w', less) && less < junk
  {
    var w1 := Ask(w, "x");
    var wire, answer := w.conns[0].wire, Tag("x" + "\n", w.nextId);
    FrontRead(wire, answer, junk);
    w', less := EatFront(w, w1, wire, answer, junk);
    JunkShrinks(wire, w.nextId, junk, junk - less, answer);
  }

  lemma EatFront(w: World, w1: World, wire: seq<Cell>, answer: seq<Cell>, junk: nat) returns (w': World, less: nat)
    requires Leads(w, Asking("x"), w1) && w1.phase.Reading? && w1.stream == Some(0) && |w1.conns| > 0
    requires w1.conns[0].wire == wire + answer && !w1.conns[0].closed
    requires var r := ReadLine(Chars(wire + answer), false); !r.Pending? && 0 < r.consumed <= junk <= |wire|
    ensures Leads(w, Asking("x") + [Read(false)], w') && less < junk
    ensures w'.phase.Idle? && w'.stream == Some(0) && w'.nextId == w1.nextId && |w'.conns| > 0
    ensures w'.conns[0] == w1.conns[0].(wire := (wire + answer)[junk - less..])
  {
    w' := Take(w, "x", w1, false);
    less := junk - NextRead(w1).consumed;
  }

  /** What `Behind` says of the wire. */
  predicate JunkThenAnswers(wire: seq<Cell>, nextId: nat, junk: nat) {
    && junk <= |wire| && (junk > 0 ==> wire[junk - 1].c == '\n')
    && wire != []
    && (forall i :: 0 <= i < |wire| ==> wire[i].owner < nextId)
    && (junk < |wire| ==> junk + 2 <= |wire| && wire[junk].c == 'x' && wire[junk + 1].c == '\n'
                          && wire[junk].owner == wire[junk + 1].owner)
  }

  lemma JunkShrinks(wire: seq<Cell>, nextId: nat, junk: nat, n: nat, answer: seq<Cell>)
    requires JunkThenAnswers(wire, nextId, junk) && 0 < n <= junk
    requires |answer| == 2 && answer[0] == Cell('x', nextId) && answer[1] == Cell('\n', nextId)
    ensures JunkThenAnswers((wire + answer)[n..], nextId + 1, junk - n)
  {
    var longer := wire + answer;
    var rest := longer[n..];
    assert forall i :: 0 <= i < |rest| ==> rest[i] == longer[i + n];
    assert forall i :: 0 <= i < |wire| ==> longer[i] == wire[i];
  }

  lemma ReadX(wire: seq<Cell>)
    requires |wire| >= 2 && wire[0].c == 'x' && wire[1].c == '\n'
    ensures ReadLine(Chars(wire), false).Line? && ReadLine(Chars(wire), false).consumed == 2
  {
    assert Chars(wire)[1] == '\n';
    ReadsOneLine(Chars(wire), false);
  }

  /** Without junk, the next request is handed an earlier one's answer. */
  lemma TakeStale(w: World) returns (w': World)
    requires Behind(w, 0)
    ensures Leads(w, Asking("x") + [Read(true)], w') && Stale(w')
  {
    var w1 := Ask(w, "x");
    var wire := w1.conns[0].wire;
    assert wire[0] == w.conns[0].wire[0] && wire[1] == w.conns[0].wire[1];
    ReadX(wire);
    w' := Take(w, "x", w1, true);
    var o, last := wire[0].owner, |w'.returned| - 1;
    assert wire[..2] == Tag("x\n", o);
    assert w'.returned[last] == (w.nextId, Tag("x\n", o));
  }

  lemma GoesStale(w: World, junk: nat) returns (events: seq<Event>, w': World)
    requires Behind(w, junk)
    ensures Leads(w, events, w') && forall k :: 0 <= k < |events| ==> Fits(events[k])
    ensures Stale(w')
    decreases junk
  {
    if junk == 0 {
      w' := TakeStale(w);
      events := Asking("x") + [Read(true)];
    } else {
      var w1, less := EatJunk(w, junk);
      var rest;
      rest, w' := GoesStale(w1, less);
      LeadsTrans(w, Asking("x") + [Read(false)], w1, rest, w');
      events := Asking("x") + [Read(false)] + rest;
    }
  }

  /** The first request is answered over the cap. */
  lemma OverTheCap(w: World, text: string) returns (w': World)
    requires w.phase.Idle? && w.stream == Some(0) && w.nextId == 0 && w.conns == [Conn([], 0, [], false)]
    requires '\n' !in text && |text| > MAX_LINE
    ensures Leads(w, Asking(text) + [Read(false)], w') && Behind(w', |text| - MAX_LINE)
  {
    var w1 := Ask(w, text);
    AnswerAlone(w1.conns[0].wire, text);
    w' := Take(w, text, w1, false);
    LeftOver(w1.conns[0].wire, |text|);
  }

  lemma AnswerAlone(wire: seq<Cell>, text: string)
    requires '\n' !in text && |text| > MAX_LINE && wire == [] + Tag(text + "\n", 0)
    ensures |wire| == |text| + 1 && wire[|text|].c == '\n' && Owned(wire, 0)
    ensures ReadLine(Chars(wire), false) == OverCap(MAX_LINE + 1)
  {
    var s := Chars(wire);
    assert forall i :: 0 <= i < |text| ==> s[i] == text[i];
    ReadsOneLine(s, false);
  }

  lemma LeftOver(wire: seq<Cell>, last: nat)
    requires |wire| == last + 1 && last > MAX_LINE && wire[last].c == '\n' && Owned(wire, 0)
    ensures JunkThenAnswers(wire[MAX_LINE + 1..], 1, last - MAX_LINE)
  {
    var rest := wire[MAX_LINE + 1..];
    assert forall i :: 0 <= i < |rest| ==> rest[i] == wire[i + MAX_LINE + 1];
  }

  /** For any response over the cap, however all others fit, there is a run in which a
      later request is handed the whole answer to an earlier one. */
  lemma OverCapBreaksPairing(text: string) returns (run: seq<Event>)
    requires '\n' !in text && |text| > MAX_LINE
    ensures Valid(run) && Stale(After(run))
    ensures |run| > 2 && run[2] == Answer(0, text) && forall k :: 0 <= k < |run| && k != 2 ==> Fits(run[k])
  {
    var w := OverTheCap(INITIAL_WORLD, text);
    var events, w' := GoesStale(w, |text| - MAX_LINE);
    var start := Asking(text) + [Read(false)];
    LeadsTrans(INITIAL_WORLD, start, w, events, w');
    LeadsIsRun(start + events, w');
    run := start + events;
  }

  // ---- Harm shows --------------------------------------------------------------------------------

  /** The client is idle on a connection whose next line is not its own. */
  predicate Dirty(w: World) {
    && w.phase.Idle? && w.stream.Some? && w.stream.value < |w.conns|
    && var c := w.conns[w.stream.value];
       && (forall i :: 0 <= i < |c.wire| ==> c.wire[i].owner < w.nextId)
       && if c.closed then !Barren(c.wire) else c.wire != [] && c.wire[|c.wire| - 1].c == '\n'
  }

  /** On such a connection a read gives a line with bytes in it, or refuses a part and
      leaves the rest as bad. */
  lemma DirtyRead(wire: seq<Cell>, closed: bool)
    requires if closed then !Barren(wire) else wire != [] && wire[|wire| - 1].c == '\n'
    ensures var r := ReadLine(Chars(wire), closed);
            && !r.Pending? && 0 < r.consumed <= |wire|
            && (r.OverCap? ==>
                  var rest := wire[r.consumed..];
                  if closed then !Barren(rest) else rest != [] && rest[|rest| - 1].c == '\n')
  {
    var s := Chars(wire);
    ReadsOneLine(s, closed);
    if !closed {
      assert s[|wire| - 1] == '\n';
    }
    var r := ReadLine(s, closed);
    if r.OverCap? {
      assert forall i :: 0 <= i < r.consumed ==> s[i] in s[..r.consumed];
      ModuloDown(|wire|);
      OverCapRest(wire, r.consumed);
    }
  }

  lemma OverCapRest(wire: seq<Cell>, n: nat)
    requires n == MAX_LINE + 1 <= |wire| && forall i :: 0 <= i < n ==> wire[i].c != '\n'
    ensures Barren(wire[n..]) ==> Barren(wire)
    ensures wire[|wire| - 1].c == '\n' ==> wire[n..] != [] && wire[n..][|wire[n..]| - 1].c == '\n'
  {
    ModuloDown(|wire|);
    var rest := wire[n..];
    if Barren(rest) {
      forall i | 0 <= i < |wire| ensures wire[i].c != '\n' {
        if i >= n {
          assert wire[i] == rest[i - n];
        }
      }
    }
  }

  /** Another request on that connection. */
  lemma AskAgain(w: World) returns (w1: World)
    requires Dirty(w)
    ensures Leads(w, [Begin, Wrote], w1)
    ensures w1.phase == Reading(w.nextId) && w1.stream == w.stream && w1.nextId == w.nextId + 1
    ensures w1.returned == w.returned && |w1.conns| == |w.conns|
    ensures w1.conns[w.stream.value] == w.conns[w.stream.value].(asked := w.conns[w.stream.value].asked + [w.nextId])
  {
    var b := Apply(w, Begin);
    w1 := Apply(b, Wrote);
    Leads1(w, Begin);
    Leads1(b, Wrote);
    LeadsTrans(w, [Begin], b, [Wrote], w1);
    assert [Begin] + [Wrote] == [Begin, Wrote];
  }

  /** One more round on it: a wrong line is handed over, or the rest is shorter. */
  lemma DirtyRound(w: World) returns (w2: World)
    requires Dirty(w)
    ensures Leads(w, [Begin, Wrote, Read(true)], w2)
    ensures !Paired(w2)
            || (Dirty(w2) && |w2.conns[w2.stream.value].wire| < |w.conns[w.stream.value].wire|)
  {
    var w1 := AskAgain(w);
    w2 := TakeAny(w, [Begin, Wrote], w1, true);
    assert [Begin, Wrote] + [Read(true)] == [Begin, Wrote, Read(true)];
    var c := w1.conns[w.stream.value];
    if NextRead(w1).Line? {
      WrongOwner(w2.returned, |w1.returned|, w.nextId, c.wire[..NextRead(w1).consumed]);
    }
  }

  /** A read of what is not the client's own line. */
  lemma TakeAny(w: World, events: seq<Event>, w1: World, parses: bool) returns (w2: World)
    requires Leads(w, events, w1) && w1.phase.Reading? && w1.stream.Some? && w1.stream.value < |w1.conns|
    requires var c := w1.conns[w1.stream.value];
             if c.closed then !Barren(c.wire) else c.wire != [] && c.wire[|c.wire| - 1].c == '\n'
    ensures Leads(w, events + [Read(parses)], w2)
    ensures var c, r := w1.conns[w1.stream.value], NextRead(w1);
            && 0 < r.consumed <= |c.wire|
            && w2.phase.Idle? && w2.stream == w1.stream && w2.nextId == w1.nextId && |w2.conns| == |w1.conns|
            && w2.conns[w1.stream.value] == c.(wire := c.wire[r.consumed..])
            && (r.Line? && parses ==> w2.returned == w1.returned + [(w1.phase.id, c.wire[..r.consumed])])
            && (r.OverCap? ==>
                  var rest := c.wire[r.consumed..];
                  if c.closed then !Barren(rest) else rest != [] && rest[|rest| - 1].c == '\n')
  {
    var c := w1.conns[w1.stream.value];
    DirtyRead(c.wire, c.closed);
    w2 := Apply(w1, Read(parses));
    Leads1(w1, Read(parses));
    LeadsTrans(w, events, w1, [Read(parses)], w2);
  }

  lemma {:induction false} DirtShows(w: World) returns (events: seq<Event>, w': World)
    requires Dirty(w)
    ensures Leads(w, events, w') && !Paired(w')
    ensures forall k :: 0 <= k < |events| ==> Fits(events[k]) && !events[k].ReadFailed?
    decreases |w.conns[w.stream.value].wire|
  {
    w' := DirtyRound(w);
    events := [Begin, Wrote, Read(true)];
    if Paired(w') {
      var w2 := w';
      var rest;
      rest, w' := DirtShows(w2);
      LeadsTrans(w, events, w2, rest, w');
      events := events + rest;
    }
  }

  lemma WrongOwner(returned: seq<(nat, seq<Cell>)>, i: nat, id: nat, cells: seq<Cell>)
    requires i < |returned| && returned[i] == (id, cells) && cells != [] && cells[0].owner < id
    ensures exists j :: 0 <= j < |returned| && !Owned(returned[j].1, returned[j].0)
  {
    assert !Owned(returned[i].1, returned[i].0);
  }

  function Sent(e: Event): string
    requires e.Answer? || (e.AnswerCut? && e.sent <= |e.text|)
  {
    if e.Answer? then e.text + "\n" else e.text[..e.sent]
  }

  /** An answer on the connection in use is alone on the wire. */
  lemma AnswerPlaced(w: World, e: Event)
    requires Inv(w) && Enabled(w, e) && (e.Answer? || e.AnswerCut?) && w.stream == Some(e.conn)
    ensures w.phase.Reading? && w.phase.id < w.nextId
    ensures var w1 := Apply(w, e);
            && w1.phase == w.phase && w1.stream == w.stream && w1.nextId == w.nextId && e.conn < |w1.conns|
            && w1.conns[e.conn].wire == Tag(Sent(e), w.phase.id) && w1.conns[e.conn].closed == e.AnswerCut?
  {
    assert [] + Tag(Sent(e), w.phase.id) == Tag(Sent(e), w.phase.id);
  }

  /** A response over the cap: the read that follows takes part of it. */
  lemma OverCapDirties(w: World, e: Event) returns (w': World)
    requires Inv(w) && Enabled(w, e) && Harms(w, e) && (e.Answer? || e.AnswerCut?)
    ensures Leads(w, [e] + [Read(false)], w') && Dirty(w')
  {
    AnswerPlaced(w, e);
    SentIsLong(w, e);
    Leads1(w, e);
    w' := TakeOverCap(w, e, Apply(w, e), e.conn, Sent(e));
  }

  lemma SentIsLong(w: World, e: Event)
    requires Enabled(w, e) && Harms(w, e) && (e.Answer? || e.AnswerCut?)
    ensures |Sent(e)| > MAX_LINE && forall i :: 0 <= i <= MAX_LINE ==> Sent(e)[i] != '\n'
    ensures if e.AnswerCut? then |Sent(e)| % (MAX_LINE + 1) != 0 else Sent(e)[|Sent(e)| - 1] == '\n'
  {
    assert forall i :: 0 <= i <= MAX_LINE ==> Sent(e)[i] == e.text[i] && e.text[i] in e.text;
  }

  lemma TakeOverCap(w: World, e: Event, w1: World, i: nat, text: string) returns (w2: World)
    requires Leads(w, [e], w1) && w1.phase.Reading? && w1.phase.id < w1.nextId
    requires w1.stream == Some(i) && i < |w1.conns| && w1.conns[i].wire == Tag(text, w1.phase.id)
    requires |text| > MAX_LINE && forall j :: 0 <= j <= MAX_LINE ==> text[j] != '\n'
    requires if w1.conns[i].closed then |text| % (MAX_LINE + 1) != 0 else text[|text| - 1] == '\n'
    ensures Leads(w, [e] + [Read(false)], w2) && Dirty(w2)
  {
    OverCapWire(w1.conns[i].wire, text, w1.phase.id, w1.conns[i].closed);
    w2 := TakeAny(w, [e], w1, false);
  }

  lemma OverCapWire(wire: seq<Cell>, text: string, id: nat, closed: bool)
    requires wire == Tag(text, id) && |text| > MAX_LINE && forall i :: 0 <= i <= MAX_LINE ==> text[i] != '\n'
    requires if closed then |text| % (MAX_LINE + 1) != 0 else text[|text| - 1] == '\n'
    ensures ReadLine(Chars(wire), closed) == OverCap(MAX_LINE + 1) && MAX_LINE + 1 <= |wire|
    ensures if closed then !Barren(wire) else wire != [] && wire[|wire| - 1].c == '\n'
  {
    var s := Chars(wire);
    assert forall i :: 0 <= i < |s| ==> s[i] == text[i];
    ReadsOneLine(s, closed);
  }

  /** A failed read: what is left, or the answer once it comes, is still there. */
  lemma FailedReadDirties(w: World, e: Event) returns (events: seq<Event>, w': World)
    requires Inv(w) && Enabled(w, e) && Harms(w, e) && e.ReadFailed?
    ensures Leads(w, [e] + events, w') && Dirty(w')
    ensures events == [] || events == [Answer(w.stream.value, "x")]
  {
    var i := w.stream.value;
    var c := w.conns[i];
    w' := Apply(w, e);
    events := [];
    Leads1(w, e);
    assert [e] + [] == [e];
    if !c.closed && c.wire == [] {
      var answer := Answer(i, "x");
      var w2 := Apply(w', answer);
      Leads1(w', answer);
      LeadsTrans(w, [e], w', [answer], w2);
      events, w' := [answer], w2;
      assert w2.conns[i].wire == [] + Tag("x" + "\n", c.asked[c.answered]);
    } else if !c.closed {
      var rest := c.wire[e.eaten..];
      assert Chars(c.wire)[|c.wire| - 1] == '\n';
      assert e.eaten < |c.wire| by {
        assert c.wire[..e.eaten] == c.wire || e.eaten < |c.wire|;
      }
      assert rest[|rest| - 1] == c.wire[|c.wire| - 1];
    }
  }

  /** The condition of `ResponsesArePaired` is exact: whatever event does harm, however
      sound the world before it, a later request can then be handed bytes that answer an
      earlier one, with no further harm done. */
  lemma HarmShows(w: World, e: Event) returns (events: seq<Event>, w': World)
    requires Inv(w) && Enabled(w, e) && Harms(w, e)
    ensures Leads(w, [e] + events, w') && !Paired(w')
    ensures forall k :: 0 <= k < |events| ==> Fits(events[k]) && !events[k].ReadFailed?
  {
    var w1;
    if e.ReadFailed? {
      events, w1 := FailedReadDirties(w, e);
    } else {
      w1 := OverCapDirties(w, e);
      events := [Read(false)];
    }
    var rest;
    rest, w' := DirtShows(w1);
    LeadsTrans(w, [e] + events, w1, rest, w');
    assert [e] + events + rest == [e] + (events + rest);
    events := events + rest;
  }

  /** A read that fails before its answer comes: the next request is handed that answer
      whole. */
  lemma FailedReadBreaksPairing() returns (run: seq<Event>)
    ensures Valid(run) && Stale(After(run))
    ensures |run| > 2 && run[2] == ReadFailed(0) && forall k :: 0 <= k < |run| ==> Fits(run[k])
  {
    var w := AfterFailedRead();
    var rest, w' := GoesStale(w, 0);
    var start := [Begin, Wrote, ReadFailed(0), Answer(0, "x")];
    LeadsTrans(INITIAL_WORLD, start, w, rest, w');
    LeadsIsRun(start + rest, w');
    run := start + rest;
  }

  lemma AfterFailedRead() returns (w: World)
    ensures Leads(INITIAL_WORLD, [Begin, Wrote, ReadFailed(0), Answer(0, "x")], w) && Behind(w, 0)
  {
    var w1, w2 := World(Some(0), Writing(0), 1, [Conn([], 0, [], false)], []),
                  World(Some(0), Reading(0), 1, [Conn([0], 0, [], false)], []);
    var w3 := w2.(phase := Idle);
    w := w3.(conns := [Conn([0], 1, Tag("x\n", 0), false)]);
    var ws, events := [INITIAL_WORLD, w1, w2, w3, w], [Begin, Wrote, ReadFailed(0), Answer(0, "x")];
    assert StepAt(ws, events, 0);
    assert [] + [0] == [0];
    assert StepAt(ws, events, 1);
    assert StepAt(ws, events, 2);
    assert "x" + "\n" == "x\n" && [] + Tag("x\n", 0) == Tag("x\n", 0);
    assert StepAt(ws, events, 3);
    assert Trace(ws, events);
  }
}
