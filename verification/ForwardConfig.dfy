/** Building a command-line session's forwards from its configuration tables. */
module ForwardConfig {
  import opened Options
  import opened Records
  import opened Text
  import opened Authority

  const MAX_LABEL_LEN := 64

  datatype Entry = Entry(displayLabel: string, localPort: Port, remoteHost: string, remotePort: Port)

  datatype Reason = OverlongLabel | BadHost(error: HostError) | ZeroLocalPort | ZeroRemotePort | PortUsedBy(owner: PortForward)

  /** The offending entry's 1-based position, and what is wrong with it. */
  datatype ConfigError = ConfigError(position: nat, reason: Reason)

  /** The label's limit counts characters. */
  function ValidateLabel(input: string): Option<string> {
    if |Trim(input)| > MAX_LABEL_LEN then None else Some(Trim(input))
  }

  /** What the entry becomes on its own. */
  function ForwardOf(e: Entry): Result<PortForward, Reason> {
    match ValidateLabel(e.displayLabel)
    case None => Err(OverlongLabel)
    case Some(name) =>
      match ValidateRemoteHost(e.remoteHost)
      case Err(error) => Err(BadHost(error))
      case Ok(host) =>
        if e.localPort == 0 then Err(ZeroLocalPort)
        else if e.remotePort == 0 then Err(ZeroRemotePort)
        else Ok(PortForward(Decimal(e.localPort), name, e.localPort, host, e.remotePort, true))
  }

  // ---- The whole list, for any way to build one forward that keeps its port --------------------

  type Builder = Entry -> Result<PortForward, Reason>

  ghost predicate KeepsPort(build: Builder) {
    forall e :: build(e).Ok? ==> build(e).value.localPort == e.localPort
  }

  /** The entry is fit and no earlier entry has its port. */
  predicate Fits(build: Builder, entries: seq<Entry>, i: nat)
    requires i < |entries|
  {
    build(entries[i]).Ok? && forall j :: 0 <= j < i ==> entries[j].localPort != entries[i].localPort
  }

  predicate Accepted(build: Builder, entries: seq<Entry>, forwards: seq<PortForward>) {
    && |forwards| == |entries|
    && forall i :: 0 <= i < |entries| ==> Fits(build, entries, i) && build(entries[i]) == Ok(forwards[i])
  }

  /** What is wrong with the entry, once everything before it was accepted. */
  predicate Fault(build: Builder, entries: seq<Entry>, i: nat, reason: Reason)
    requires i < |entries|
  {
    match build(entries[i])
    case Err(r) => reason == r
    case Ok(_) =>
      reason.PortUsedBy? && exists j :: 0 <= j < i && entries[j].localPort == entries[i].localPort
                                        && build(entries[j]) == Ok(reason.owner)
  }

  /** Everything is accepted, or the error is the first unfit entry's. */
  predicate Outcome(build: Builder, entries: seq<Entry>, result: Result<seq<PortForward>, ConfigError>) {
    match result
    case Ok(forwards) => Accepted(build, entries, forwards)
    case Err(ConfigError(position, reason)) =>
      && 1 <= position <= |entries|
      && !Fits(build, entries, position - 1) && Fault(build, entries, position - 1, reason)
      && forall j :: 0 <= j < position - 1 ==> Fits(build, entries, j)
  }

  method FromConfig(entries: seq<Entry>) returns (result: Result<seq<PortForward>, ConfigError>)
    ensures Outcome(ForwardOf, entries, result)
    ensures Answers(entries, result)
  {
    result := FromEntries(ForwardOf, entries);
    OutcomeAnswers(ForwardOf, entries, result);
  }

  method FromEntries(build: Builder, entries: seq<Entry>) returns (result: Result<seq<PortForward>, ConfigError>)
    requires KeepsPort(build)
    ensures Outcome(build, entries, result)
  {
    var forwards: seq<PortForward> := [];
    for i := 0 to |entries|
      invariant |forwards| == i
      invariant forall j :: 0 <= j < i ==> Fits(build, entries, j) && build(entries[j]) == Ok(forwards[j])
    {
      var forward := build(entries[i]);
      if forward.Err? {
        return Err(ConfigError(i + 1, forward.error));
      }
      var owner := FindPort(forwards, entries[i].localPort);
      if owner.Some? {
        return Err(ConfigError(i + 1, PortUsedBy(owner.value)));
      }
      forwards := forwards + [forward.value];
    }
    return Ok(forwards);
  }

  method FindPort(forwards: seq<PortForward>, port: Port) returns (owner: Option<PortForward>)
    ensures owner.Some? ==> owner.value in forwards && owner.value.localPort == port
    ensures owner.None? ==> forall f :: f in forwards ==> f.localPort != port
  {
    for i := 0 to |forwards|
      invariant forall j :: 0 <= j < i ==> forwards[j].localPort != port
    {
      if forwards[i].localPort == port {
        return Some(forwards[i]);
      }
    }
    return None;
  }

  predicate UniqueIds(forwards: seq<PortForward>) {
    forall i, j :: 0 <= i < j < |forwards| ==> forwards[i].id != forwards[j].id
  }

  ghost predicate Sound(f: PortForward) {
    && f.enabled && f.id == Decimal(f.localPort) && f.localPort > 0 && f.remotePort > 0
    && |f.displayLabel| <= MAX_LABEL_LEN
    && ValidateRemoteHost(f.remoteHost) == Ok(f.remoteHost)
    && SplitAuthority(FormatHostPort(f.remoteHost, f.remotePort), None) == Some((f.remoteHost, f.remotePort))
  }

  /** One built forward is enabled, is named by its port, and has a host that
      validates to itself and an endpoint that reads back. */
  lemma BuiltIsSound(e: Entry)
    requires ForwardOf(e).Ok?
    ensures Sound(ForwardOf(e).value) && ForwardOf(e).value.localPort == e.localPort
  {
    ValidateIdempotent(e.remoteHost);
    PrintThenParse(e.remoteHost, e.remotePort, None);
  }

  lemma PortsTellApart(build: Builder, entries: seq<Entry>, forwards: seq<PortForward>)
    requires Accepted(build, entries, forwards) && KeepsPort(build)
    requires forall i :: 0 <= i < |forwards| ==> forwards[i].id == Decimal(forwards[i].localPort)
    ensures UniqueIds(forwards)
  {
    forall i, j | 0 <= i < j < |forwards| ensures forwards[i].id != forwards[j].id {
      assert Fits(build, entries, j) && Fits(build, entries, i);
      DecimalInjective(forwards[i].localPort, forwards[j].localPort);
    }
  }

  /** An accepted configuration gives sound forwards that can be told apart. */
  lemma AcceptedIsSound(build: Builder, entries: seq<Entry>, forwards: seq<PortForward>)
    requires Accepted(build, entries, forwards) && build == ForwardOf
    ensures UniqueIds(forwards)
    ensures forall i :: 0 <= i < |forwards| ==> Sound(forwards[i])
  {
    forall i | 0 <= i < |forwards| ensures Sound(forwards[i]) {
      assert Fits(build, entries, i);
      BuiltIsSound(entries[i]);
    }
    PortsTellApart(build, entries, forwards);
  }

  // ---- What is accepted, field by field ------------------------------------------------------

  /** The entry's own fields are in order. */
  predicate InOrder(e: Entry) {
    |Trim(e.displayLabel)| <= 64 && ValidateRemoteHost(e.remoteHost).Ok? && e.localPort != 0 && e.remotePort != 0
  }

  /** The forward is the entry's: its trimmed label, its ports, its host as validated. */
  predicate Carries(e: Entry, f: PortForward) {
    && f.displayLabel == Trim(e.displayLabel) && f.localPort == e.localPort && f.remotePort == e.remotePort
    && ValidateRemoteHost(e.remoteHost) == Ok(f.remoteHost) && f.enabled && f.id == Decimal(e.localPort)
  }

  /** The first thing wrong with the entry itself: label, host, local port, remote port. */
  predicate OwnFault(e: Entry, reason: Reason) {
    match reason
    case OverlongLabel => |Trim(e.displayLabel)| > 64
    case BadHost(error) => |Trim(e.displayLabel)| <= 64 && ValidateRemoteHost(e.remoteHost) == Err(error)
    case ZeroLocalPort => |Trim(e.displayLabel)| <= 64 && ValidateRemoteHost(e.remoteHost).Ok? && e.localPort == 0
    case ZeroRemotePort => InOrder(e.(remotePort := 1)) && e.remotePort == 0
    case PortUsedBy(_) => false
  }

  /** Ports before position `n` are apart and entries in order. */
  predicate GoodUpTo(entries: seq<Entry>, n: nat) {
    && n <= |entries| && (forall i :: 0 <= i < n ==> InOrder(entries[i]))
    && (forall i, j :: 0 <= i < j < n ==> entries[i].localPort != entries[j].localPort)
  }

  /** What is wrong with an entry after a good start: its own fault, or the forward of an
      earlier entry that has its port. */
  predicate FaultAt(entries: seq<Entry>, i: nat, reason: Reason)
    requires i < |entries|
  {
    if !InOrder(entries[i]) then OwnFault(entries[i], reason)
    else reason.PortUsedBy? && HasPort(entries[..i], entries[i].localPort, reason.owner)
  }

  predicate HasPort(entries: seq<Entry>, port: Port, owner: PortForward) {
    exists j :: 0 <= j < |entries| && entries[j].localPort == port && Carries(entries[j], owner)
  }

  /** A list is accepted exactly when every entry is in order and no two have one local
      port; each forward then carries its entry. Else the error is the first entry's that
      is not, with what is wrong with it, or the forward that has its port. */
  predicate Answers(entries: seq<Entry>, result: Result<seq<PortForward>, ConfigError>) {
    match result
    case Ok(forwards) =>
      && |forwards| == |entries| && GoodUpTo(entries, |entries|)
      && forall i :: 0 <= i < |entries| ==> Carries(entries[i], forwards[i])
    case Err(ConfigError(position, reason)) =>
      && 1 <= position <= |entries|
      && GoodUpTo(entries, position - 1)
      && FaultAt(entries, position - 1, reason)
  }

  predicate ExactAt(build: Builder, e: Entry) {
    && (build(e).Ok? <==> InOrder(e))
    && if build(e).Ok? then Carries(e, build(e).value) else OwnFault(e, build(e).error)
  }

  ghost predicate Exact(build: Builder) {
    forall e :: ExactAt(build, e)
  }

  lemma BuildExact(e: Entry)
    ensures ExactAt(ForwardOf, e)
  {
  }

  lemma FitsAreGood(build: Builder, entries: seq<Entry>, n: nat)
    requires Exact(build) && n <= |entries| && forall j :: 0 <= j < n ==> Fits(build, entries, j)
    ensures GoodUpTo(entries, n)
  {
    forall j | 0 <= j < n ensures InOrder(entries[j]) && forall i :: 0 <= i < j ==> entries[i].localPort != entries[j].localPort {
      assert Fits(build, entries, j);
      assert ExactAt(build, entries[j]);
    }
  }

  lemma AcceptedAnswers(build: Builder, entries: seq<Entry>, forwards: seq<PortForward>)
    requires Exact(build) && Accepted(build, entries, forwards)
    ensures Answers(entries, Ok(forwards))
  {
    FitsAreGood(build, entries, |entries|);
    forall i | 0 <= i < |entries| ensures Carries(entries[i], forwards[i]) {
      assert Fits(build, entries, i);
      assert ExactAt(build, entries[i]);
    }
  }

  lemma PortIsHad(build: Builder, entries: seq<Entry>, i: nat, j: nat, owner: PortForward)
    requires Exact(build) && j < i < |entries| && build(entries[j]) == Ok(owner)
    ensures HasPort(entries[..i], entries[j].localPort, owner)
  {
    assert ExactAt(build, entries[j]);
    assert entries[..i][j] == entries[j];
  }

  lemma FaultAnswers(build: Builder, entries: seq<Entry>, i: nat, reason: Reason)
    requires Exact(build) && i < |entries| && Fault(build, entries, i, reason)
    ensures FaultAt(entries, i, reason)
  {
    assert ExactAt(build, entries[i]);
    if build(entries[i]).Ok? {
      var j :| 0 <= j < i && entries[j].localPort == entries[i].localPort && build(entries[j]) == Ok(reason.owner);
      PortIsHad(build, entries, i, j, reason.owner);
    }
  }

  /** Every outcome of the configuration, told from its entries alone. */
  lemma OutcomeAnswers(build: Builder, entries: seq<Entry>, result: Result<seq<PortForward>, ConfigError>)
    requires Outcome(build, entries, result) && build == ForwardOf
    ensures Answers(entries, result)
  {
    forall e ensures ExactAt(build, e) {
      BuildExact(e);
    }
    match result
    case Ok(forwards) => AcceptedAnswers(build, entries, forwards);
    case Err(ConfigError(position, reason)) =>
      FitsAreGood(build, entries, position - 1);
      FaultAnswers(build, entries, position - 1, reason);
  }
}
