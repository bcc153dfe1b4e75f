/**
 * The semantic read scheduler: what happens to one key's entry under the scheduler's lock, and
 * the system of concurrent calls, their fetches and the shadow cache, one atomic step at a time.
 */
module SemanticReads {
  import opened Protocol
  import opened ShadowCache
  import opened ShadowEligibility

  // ---- the circuit breaker ----

  datatype Circuit = Closed | Open | HalfOpen

  datatype Settings = Settings(enabled: bool, failureBudget: int, openCooldown: int, probeLimit: int)

  const DEFAULT_OPEN_COOLDOWN := 15_000_000_000
  const DEFAULT_PROBE_LIMIT := 1

  /** A budget of zero or less turns the breaker off; cooldown and probe limit get their defaults. */
  function Normalized(failureBudget: int, openCooldown: int, probeLimit: int): (s: Settings)
    ensures s.openCooldown >= 0 && s.probeLimit >= 1 && (s.enabled ==> s.failureBudget >= 1)
  {
    Settings(failureBudget > 0, failureBudget,
             if openCooldown == 0 then DEFAULT_OPEN_COOLDOWN else if openCooldown < 0 then 0 else openCooldown,
             if probeLimit == 0 then DEFAULT_PROBE_LIMIT else if probeLimit < 1 then 1 else probeLimit)
  }

  /**
   * The last good value of a key. `origin` is the place in the system's history the value comes
   * from; no decision depends on it.
   */
  datatype Copy = Copy(value: seq<Byte>, at: int, generation: Option<nat>, fromShadow: bool, passive: bool, origin: nat)

  /** `flight` tells one fetch of a key from the next. */
  datatype ReadEntry = ReadEntry(
    running: bool, flight: nat, copy: Option<Copy>, circuit: Circuit, failures: int, openedAt: Option<int>, probes: int, suppressed: nat)

  const NEW_ENTRY := ReadEntry(false, 0, None, Closed, 0, None, 0, 0)

  function Transition(s: Settings, e: ReadEntry, to: Circuit): ReadEntry {
    if !s.enabled || e.circuit == to then
      e
    else
      match to
      case Closed => e.(circuit := Closed, failures := 0, openedAt := None, probes := s.probeLimit)
      case HalfOpen => e.(circuit := HalfOpen, probes := s.probeLimit)
      case Open => e.(circuit := Open, probes := 0)
  }

  predicate CooledDown(s: Settings, e: ReadEntry, now: int) {
    s.openCooldown <= 0 || e.openedAt.None? || now - e.openedAt.value >= s.openCooldown
  }

  /** Whether a fetch may start. */
  function Guard(s: Settings, e: ReadEntry, now: int): (ReadEntry, bool) {
    if !s.enabled then (e, true)
    else if e.circuit == Open then
      if CooledDown(s, e, now) then (Transition(s, e, HalfOpen).(probes := s.probeLimit), true)
      else (e.(suppressed := e.suppressed + 1), false)
    else if e.circuit == HalfOpen then
      if e.probes > 0 then (e, true)
      else (Transition(s, e, Open).(openedAt := Some(now), suppressed := e.suppressed + 1), false)
    else (e, true)
  }

  function RecordFailure(s: Settings, e: ReadEntry, now: int): ReadEntry {
    var e1 := e.(failures := e.failures + 1);
    if !s.enabled then e
    else if e1.circuit == HalfOpen && e1.probes <= 0 then Transition(s, e1, Open).(openedAt := Some(now))
    else if e1.circuit == Closed && e1.failures >= s.failureBudget then Transition(s, e1, Open).(openedAt := Some(now))
    else e1
  }

  // ---- the locked decision ----

  /** `watch` says that the call has a watch key and there is a shadow cache. */
  datatype Request = Request(key: Key, watch: bool, maxAge: int)

  /** A value found in the shadow. */
  datatype Candidate = Candidate(value: seq<Byte>, generation: nat, passive: bool, origin: nat)

  datatype Decision =
    | Wait
    | ServeShadow
    | Retry
    | ServeCopy(copy: Copy)
    | Suppress
    | StartFetch

  predicate Revalidates(c: Cache, q: Request, cand: Candidate, now: int) {
    SnapshotOf(c, q.key).generation == cand.generation && SnapshotFresh(c, q.key, q.maxAge, now)
  }

  function Adopt(e: ReadEntry, cand: Candidate, now: int): ReadEntry {
    e.(copy := Some(Copy(cand.value, now, Some(cand.generation), true, cand.passive, cand.origin)))
  }

  /** A copy that is young enough to be looked at. */
  predicate HasRecentCopy(e: ReadEntry, maxAge: int, now: int) {
    e.copy.Some? && e.copy.value.value != [] && maxAge > 0 && 0 <= now - e.copy.value.at <= maxAge
  }

  /** Whether the shadow still stands behind a copy. */
  predicate CopyStands(c: Cache, q: Request, copy: Copy, now: int) {
    || !q.watch
    || copy.generation.None?
    || (&& SnapshotOf(c, q.key).generation == copy.generation.value
        && (copy.fromShadow ==> SnapshotFresh(c, q.key, q.maxAge, now)))
  }

  function Grant(s: Settings, e: ReadEntry, now: int): (ReadEntry, Decision) {
    var (e1, ok) := Guard(s, e, now);
    if !ok then (e1, Suppress)
    else
      (e1.(probes := if e1.circuit == HalfOpen then e1.probes - 1 else e1.probes, running := true, flight := e1.flight + 1),
       StartFetch)
  }

  function Decide(s: Settings, e: ReadEntry, q: Request, cand: Option<Candidate>, passes: nat, c: Cache, now: int)
    : (ReadEntry, Decision)
  {
    if e.running then (e, Wait)
    else if cand.Some? && Revalidates(c, q, cand.value, now) then (Adopt(e, cand.value, now), ServeShadow)
    else if cand.Some? && passes > 0 then (e, Retry)
    else if HasRecentCopy(e, q.maxAge, now) then
      if CopyStands(c, q, e.copy.value, now) then (e, ServeCopy(e.copy.value))
      else Grant(s, e.(copy := None), now)
    else Grant(s, e, now)
  }

  // ---- the end of a fetch ----

  /** A fetch fails on its own, or because it was superseded. */
  datatype Fetch = Got(value: seq<Byte>) | Failed(superseded: bool)

  predicate Supersedes(r: WriteResult) {
    r.Rejected? && r.reason in {GenerationAdvanced, StaleTimestamp, SameTimestampConflict}
  }

  /** The generation at which the key must still be for the fetch to stand. */
  function ExpectedGeneration(start: nat, write: Option<WriteResult>): nat {
    if write.Some? && write.value.Accepted? then write.value.generation else start
  }

  datatype Ending = Returned | Superseded | Errored

  function EndingOf(q: Request, start: nat, fetch: Fetch, write: Option<WriteResult>, c: Cache): Ending {
    if fetch.Failed? then (if fetch.superseded then Superseded else Errored)
    else if write.Some? && Supersedes(write.value) then Superseded
    else if q.watch && SnapshotOf(c, q.key).generation != ExpectedGeneration(start, write) then Superseded
    else Returned
  }

  function Settle(s: Settings, e: ReadEntry, q: Request, start: nat, fetch: Fetch, write: Option<WriteResult>, c: Cache,
                  now: int, origin: nat): ReadEntry
  {
    var e1 := e.(running := false);
    match EndingOf(q, start, fetch, write, c)
    case Returned =>
      var generation := if q.watch then Some(ExpectedGeneration(start, write)) else None;
      var value := if fetch.Got? then fetch.value else [];
      Transition(s, e1.(copy := Some(Copy(value, now, generation, false, false, origin)), failures := 0), Closed)
    case Superseded =>
      var giveBack := s.enabled && e1.circuit == HalfOpen && e1.probes < s.probeLimit;
      e1.(copy := None, probes := if giveBack then e1.probes + 1 else e1.probes)
    case Errored =>
      RecordFailure(s, e1, now)
  }

  // ---- the system ----

  /** What matters of the past: its indices are the times at which things happened. */
  datatype Happening =
    | Invalidation(key: Key)
    | Acceptance(key: Key, value: seq<Byte>)
    | Fetching(key: Key, fetch: Fetch)

  /** `checkedAt` is the time of the last generation check, if there was one. */
  datatype Outcome =
    | Value(value: seq<Byte>, origin: nat, checkedAt: Option<nat>)
    | Exhausted
    | CircuitOpen
    | FetchError
    | Cancelled

  datatype Pc =
    | Ready
    | Consulted(candidate: Option<Candidate>)
    | Waiting(flight: nat)
    | Granted
    | Captured(start: nat)
    | Fetched(start: nat, origin: nat, fetch: Fetch)
    | Stored(start: nat, origin: nat, fetch: Fetch, write: Option<WriteResult>)
    | Finished(outcome: Outcome)

  datatype Thread = Thread(request: Request, passes: nat, recomputes: nat, fetches: nat, pc: Pc)

  const MAX_PASSES := 2
  const MAX_RECOMPUTES := 1

  datatype Sys = Sys(
    cache: Cache, history: seq<Happening>, entries: map<Key, ReadEntry>, threads: map<nat, Thread>)

  /** One atomic step: of the shadow cache on behalf of anyone, or of the call `t`. */
  datatype Step =
    | Environment(op: Op)
    | Begin(t: nat, request: Request)
    | Consult(t: nat, now: int)
    | Discard(t: nat, now: int)
    | DecideStep(t: nat, now: int)
    | Wake(t: nat)
    | Cancel(t: nat)
    | Capture(t: nat)
    | FetchStep(t: nat, fetch: Fetch)
    | StoreStep(t: nat, now: int)
    | SettleStep(t: nat, now: int)

  function EntryOf(y: Sys, k: Key): ReadEntry {
    if k in y.entries then y.entries[k] else NEW_ENTRY
  }

  function Goto(y: Sys, t: nat, pc: Pc): Sys
    requires t in y.threads
  {
    y.(threads := y.threads[t := y.threads[t].(pc := pc)])
  }

  /** What a cache operation adds to the history. */
  function Recorded(o: Options, c: Cache, op: Op): seq<Happening> {
    if op.DoInvalidate? then [Invalidation(op.key)]
    else if op.DoWrite? && WriteTo(o, c, op.w).1.Accepted? then [Acceptance(op.w.key, op.w.value)]
    else []
  }

  function Operate(o: Options, y: Sys, op: Op): Sys {
    y.(cache := Apply(o, y.cache, op), history := y.history + Recorded(o, y.cache, op))
  }

  /** When the shadow last took a value for a key. */
  function LatestAcceptance(h: seq<Happening>, k: Key): nat {
    if h == [] then 0
    else if h[|h| - 1].Acceptance? && h[|h| - 1].key == k then |h| - 1
    else LatestAcceptance(h[..|h| - 1], k)
  }

  /** Looks the key up in the shadow, when the call may and has passes left. */
  function ConsultShadow(o: Options, y: Sys, t: nat, now: int): Sys
    requires t in y.threads
  {
    var th := y.threads[t];
    var q := th.request;
    if !q.watch || q.maxAge <= 0 || th.passes == 0 then
      Goto(y, t, Consulted(None))
    else
      var (_, found) := Lookup(o, y.cache, q.key, q.maxAge, now);
      var candidate :=
        if found.Some? && found.value.1 && found.value.0.state == Present then
          var e := found.value.0;
          Some(Candidate(e.value, e.generation, e.source == Some(Passive), LatestAcceptance(y.history, q.key)))
        else
          None;
      var y1 := Operate(o, y, DoLookup(q.key, q.maxAge, now));
      y1.(threads := y.threads[t := th.(passes := th.passes - 1, pc := Consulted(candidate))])
  }

  function AfterDecision(y: Sys, t: nat, d: Decision): Pc
    requires t in y.threads && y.threads[t].pc.Consulted?
  {
    var th := y.threads[t];
    match d
    case Wait => Waiting(EntryOf(y, th.request.key).flight)
    case ServeShadow =>
      if th.pc.candidate.Some? then
        Finished(Value(th.pc.candidate.value.value, th.pc.candidate.value.origin, Some(|y.history|)))
      else
        Ready
    case Retry => Ready
    case ServeCopy(copy) =>
      Finished(Value(copy.value, copy.origin, if th.request.watch && copy.generation.Some? then Some(|y.history|) else None))
    case Suppress => Finished(CircuitOpen)
    case StartFetch => Granted
  }

  /**
   * The last candidate does not revalidate, so the decision goes on to the copy. The copy's check
   * reads the snapshot again, and the cache may have changed in between: dropping the candidate is
   * a step of its own.
   */
  predicate FallsThrough(y: Sys, t: nat, now: int)
    requires t in y.threads && y.threads[t].pc.Consulted?
  {
    var th := y.threads[t];
    && th.pc.candidate.Some? && th.passes == 0 && !EntryOf(y, th.request.key).running
    && !Revalidates(y.cache, th.request, th.pc.candidate.value, now)
  }

  function DecideFor(s: Settings, y: Sys, t: nat, now: int): Sys
    requires t in y.threads && y.threads[t].pc.Consulted?
  {
    var th := y.threads[t];
    var (e, d) := Decide(s, EntryOf(y, th.request.key), th.request, th.pc.candidate, th.passes, y.cache, now);
    Goto(y, t, AfterDecision(y, t, d)).(entries := y.entries[th.request.key := e])
  }

  function FetchFor(y: Sys, t: nat, fetch: Fetch): Sys
    requires t in y.threads && y.threads[t].pc.Captured?
  {
    var th := y.threads[t];
    y.(history := y.history + [Fetching(th.request.key, fetch)],
       threads := y.threads[t := th.(fetches := th.fetches + 1, pc := Fetched(th.pc.start, |y.history|, fetch))])
  }

  /** The fetched value is offered to the shadow under the generation captured before the fetch. */
  function StoreFor(o: Options, y: Sys, t: nat, now: int): Sys
    requires t in y.threads && y.threads[t].pc.Fetched?
  {
    var th := y.threads[t];
    var pc := th.pc;
    if pc.fetch.Failed? || !th.request.watch then
      Goto(y, t, Stored(pc.start, pc.origin, pc.fetch, None))
    else
      var w := Write(th.request.key, ActiveConfirmed, true, pc.fetch.value, now, pc.start);
      Goto(Operate(o, y, DoWrite(w)), t, Stored(pc.start, pc.origin, pc.fetch, Some(WriteTo(o, y.cache, w).1)))
  }

  function AfterEnding(th: Thread, ending: Ending, now: nat): Thread
    requires th.pc.Stored?
  {
    match ending
    case Returned =>
      var value := if th.pc.fetch.Got? then th.pc.fetch.value else [];
      th.(pc := Finished(Value(value, th.pc.origin, if th.request.watch then Some(now) else None)))
    case Superseded =>
      if th.recomputes > 0 then th.(recomputes := th.recomputes - 1, passes := MAX_PASSES, pc := Ready)
      else th.(pc := Finished(Exhausted))
    case Errored => th.(pc := Finished(FetchError))
  }

  function SettleFor(s: Settings, y: Sys, t: nat, now: int): Sys
    requires t in y.threads && y.threads[t].pc.Stored?
  {
    var th := y.threads[t];
    var pc := th.pc;
    var k := th.request.key;
    var ending := EndingOf(th.request, pc.start, pc.fetch, pc.write, y.cache);
    y.(entries := y.entries[k := Settle(s, EntryOf(y, k), th.request, pc.start, pc.fetch, pc.write, y.cache, now, pc.origin)],
       threads := y.threads[t := AfterEnding(th, ending, |y.history|)])
  }

  /** The fetch a call waits for is still running. */
  predicate InFlight(e: ReadEntry, flight: nat) {
    e.running && e.flight == flight
  }

  /** A step that is not possible changes nothing. */
  function Take(o: Options, s: Settings, y: Sys, step: Step): Sys {
    if step.Environment? then Operate(o, y, step.op)
    else if step.Begin? then
      if step.t in y.threads then y
      else y.(threads := y.threads[step.t := Thread(step.request, MAX_PASSES, MAX_RECOMPUTES, 0, Ready)])
    else if step.t !in y.threads then y
    else
      var pc := y.threads[step.t].pc;
      match step
      case Consult(t, now) => if pc.Ready? then ConsultShadow(o, y, t, now) else y
      case Discard(t, now) => if pc.Consulted? && FallsThrough(y, t, now) then Goto(y, t, Consulted(None)) else y
      case DecideStep(t, now) => if pc.Consulted? then DecideFor(s, y, t, now) else y
      case Wake(t) => if pc.Waiting? && !InFlight(EntryOf(y, y.threads[t].request.key), pc.flight) then Goto(y, t, Ready) else y
      case Cancel(t) => if pc.Waiting? then Goto(y, t, Finished(Cancelled)) else y
      case Capture(t) =>
        if pc.Granted? then
          Goto(y, t, Captured(if y.threads[t].request.watch then SnapshotOf(y.cache, y.threads[t].request.key).generation else 0))
        else
          y
      case FetchStep(t, fetch) => if pc.Captured? then FetchFor(y, t, fetch) else y
      case StoreStep(t, now) => if pc.Fetched? then StoreFor(o, y, t, now) else y
      case SettleStep(t, now) => if pc.Stored? then SettleFor(s, y, t, now) else y
  }

  /** No entries, no calls, an empty cache. */
  function Start(catalog: map<Key, Descriptor>, activations: map<Key, set<Activation>>, degraded: bool): Sys {
    Sys(EmptyCache(catalog, activations, degraded), [], map[], map[])
  }

  function Run(o: Options, s: Settings, y: Sys, steps: seq<Step>): Sys {
    if steps == [] then y
    else Take(o, s, Run(o, s, y, steps[..|steps| - 1]), steps[|steps| - 1])
  }
}
