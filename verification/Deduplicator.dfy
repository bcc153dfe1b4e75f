/**
 * The active/passive deduplicator as a function of what it is told: reports of the gateway's own
 * transactions, passive copies from the reconstructor, ticks and resets.
 */
module Deduplicator {
  import opened Protocol
  import opened Runs
  import opened WireLog
  import opened Identity
  import R = Reconstructor

  type Digest = seq<Byte>

  // ---- budgets, in nanoseconds ----

  const ATTEMPT_UNIT := 250_000_000
  const COLLISION_UNIT := 125_000_000
  const PUBLICATION_SLACK := 250_000_000
  const MATCH_SLACK := 250_000_000
  const DELIVERY_BUDGET := 500_000_000
  const PENDING_CAPACITY := 256
  const HEALTHY_WINDOW := 5_000_000_000
  const MINIMUM_EVENTS := 10

  datatype RetryPolicy = RetryPolicy(timeoutRetries: int, nackRetries: int)

  datatype RetryEnvelope = RetryEnvelope(target: RetryPolicy, initiator: RetryPolicy, collisionSyns: int)

  datatype Budgets = Budgets(
    publish: int, delivery: int, grace: int, retention: int, capacity: int, hysteresis: int, threshold: int)

  function Max(a: int, b: int): int {
    if a >= b then a else b
  }

  /** How long one logical request may take with all its retries: the busier policy counts. */
  function LogicalEnvelope(e: RetryEnvelope): int {
    var policy := if e.initiator.timeoutRetries + e.initiator.nackRetries > e.target.timeoutRetries + e.target.nackRetries
                  then e.initiator else e.target;
    (1 + Max(policy.timeoutRetries, 0) + Max(policy.nackRetries, 0)) * ATTEMPT_UNIT + Max(e.collisionSyns, 0) * COLLISION_UNIT
  }

  /** The smallest budgets a retry envelope allows. */
  function RequiredBudgets(e: RetryEnvelope): Budgets {
    var publish := LogicalEnvelope(e) + PUBLICATION_SLACK;
    var grace := Max(publish, DELIVERY_BUDGET) + MATCH_SLACK;
    Budgets(publish, DELIVERY_BUDGET, grace, grace + DELIVERY_BUDGET, PENDING_CAPACITY, HEALTHY_WINDOW, MINIMUM_EVENTS)
  }

  /** What the constructor accepts. */
  predicate Acceptable(e: RetryEnvelope, b: Budgets) {
    var least := RequiredBudgets(e);
    && b.publish >= least.publish && b.grace >= least.grace && b.retention >= least.retention
    && b.capacity >= least.capacity && b.delivery >= least.delivery
  }

  // ---- state ----

  /** `digest` stands for the hash function, `classify` for the classes of a request with its response. */
  datatype Config = Config(lib: Library, digest: seq<Byte> -> Digest, classify: (Frame, Frame) -> seq<Byte>, budgets: Budgets)

  datatype Retained = Retained(expiresAt: int, count: nat)

  /** `thirdParty` says that the family policy lets the event count as a third party's. */
  datatype Pending = Pending(event: R.Event, hash: Digest, thirdParty: bool, releaseAt: int, epoch: nat)

  datatype Recovery = Recovery(startedAt: Option<int>, evidence: nat)

  datatype LocalAddress = LocalAddress(known: bool, address: Byte, epoch: nat)

  datatype State = State(
    epoch: nat, degraded: bool, recovery: Recovery, local: LocalAddress,
    active: map<Digest, Retained>, pending: seq<Pending>)

  const NO_RECOVERY := Recovery(None, 0)

  function Initial(local: LocalAddress): State {
    State(1, true, NO_RECOVERY, local, map[], [])
  }

  // ---- inputs and outputs ----

  datatype BusEvent =
    | ObserverFault
    | AttemptComplete(success: bool, request: Option<Frame>, response: Option<Frame>, frameType: FrameType)
    | OtherBusEvent

  datatype Input =
    | Bus(event: BusEvent, now: int)
    | Passive(heard: R.Event, thirdParty: bool, now: int)
    | Tick(now: int)
    | CriticalReset(now: int)

  datatype Disposition = ThirdParty | MatchedCopy | LocalInbound | Observability | Discontinued

  /** How an output came about. */
  datatype Cause = ByMatch | ByGrace | ByOverflow | AtOnce | ByReset

  datatype Adjudication = Adjudication(
    disposition: Disposition, event: Option<R.Event>, hash: Digest, epoch: nat, cause: Cause)

  // ---- identities ----

  function Ascii(s: string): seq<Byte> {
    seq(|s|, i requires 0 <= i < |s| => s[i] as int % 256)
  }

  const TARGET_CLASS := Ascii("initiator_target")
  const INITIATOR_CLASS := Ascii("initiator_initiator")
  const BROADCAST_CLASS := Ascii("broadcast")
  const SUCCESS := Ascii("success")
  const ACK_ONLY := Ascii("ack_only")
  const AMBIGUOUS := Ascii("error_or_ambiguous")

  /** The response class of a success, the same for reports and copies. */
  function ResponseClass(cfg: Config, request: Frame, frameType: FrameType, response: Option<Frame>): seq<Byte> {
    match response
    case None => if frameType == InitiatorInitiator then ACK_ONLY else AMBIGUOUS
    case Some(frame) => cfg.classify(request, frame)
  }

  function HashOf(cfg: Config, class_: seq<Byte>, request: Frame, frameType: FrameType, response: Option<Frame>): Digest {
    var responseClass := ResponseClass(cfg, request, frameType, response);
    cfg.digest(Preimage(Identity(class_, request.source, request.target, responseClass, SUCCESS,
                                 CanonicalFrameBytes(cfg.lib, request), FrameBytes(cfg.lib, response))))
  }

  /** The identity of a successful report, unless its frame type is unknown. */
  function ReportHash(cfg: Config, e: BusEvent): Option<Digest>
    requires e.AttemptComplete? && e.request.Some?
  {
    match e.frameType
    case Broadcast => Some(HashOf(cfg, BROADCAST_CLASS, e.request.value, e.frameType, e.response))
    case InitiatorInitiator => Some(HashOf(cfg, INITIATOR_CLASS, e.request.value, e.frameType, e.response))
    case InitiatorTarget => Some(HashOf(cfg, TARGET_CLASS, e.request.value, e.frameType, e.response))
    case UnknownType => None
  }

  /** What a passive event is taken for. */
  datatype Hearing = Boundary | Evidence | Immediate(inbound: bool) | Eligible(hash: Digest)

  function Hear(cfg: Config, local: LocalAddress, e: R.Event): Hearing {
    match e
    case Discontinuity(_, _) => Boundary
    case BroadcastFrame(_, _, _) => Evidence
    case AbandonedTransaction(_, frameType, request, _, hasRequest, _, _, _, _, _, _) =>
      Immediate(frameType == InitiatorInitiator && local.known && hasRequest && request.target == local.address)
    case InitiatorFrame(request, _, _, _) =>
      if local.known && request.target == local.address then Immediate(true)
      else if !local.known then Immediate(false)
      else Eligible(HashOf(cfg, INITIATOR_CLASS, request, InitiatorInitiator, None))
    case Transaction(request, response, _, _, _) =>
      Eligible(HashOf(cfg, TARGET_CLASS, request, InitiatorTarget, Some(response)))
  }

  // ---- expiry ----

  /** The entries still waiting at `now`, in order. */
  function Waiting(pending: seq<Pending>, now: int): seq<Pending> {
    if pending == [] then []
    else
      var n := |pending| - 1;
      Waiting(pending[..n], now) + if pending[n].releaseAt > now then [pending[n]] else []
  }

  /** The entries whose grace is over at `now`, in order. */
  function Due(pending: seq<Pending>, now: int): seq<Pending> {
    if pending == [] then []
    else
      var n := |pending| - 1;
      Due(pending[..n], now) + if pending[n].releaseAt > now then [] else [pending[n]]
  }

  function Release(s: State, p: Pending): Adjudication {
    Adjudication(if s.degraded || !p.thirdParty then Observability else ThirdParty, Some(p.event), p.hash, s.epoch, ByGrace)
  }

  function Releases(s: State, due: seq<Pending>): seq<Adjudication> {
    if due == [] then [] else Releases(s, due[..|due| - 1]) + [Release(s, due[|due| - 1])]
  }

  function Live(active: map<Digest, Retained>, now: int): map<Digest, Retained> {
    map h | h in active && active[h].expiresAt > now :: active[h]
  }

  /** Every bus or passive event starts by expiring both sides. */
  function Expire(s: State, now: int): State {
    s.(pending := Waiting(s.pending, now), active := Live(s.active, now))
  }

  // ---- recovery ----

  function Degrade(s: State): State {
    s.(degraded := true, recovery := NO_RECOVERY)
  }

  function RecordEvidence(b: Budgets, s: State, now: int): State {
    if !s.degraded then
      s
    else
      var started := if s.recovery.startedAt.None? then now else s.recovery.startedAt.value;
      var evidence := s.recovery.evidence + 1;
      s.(recovery := Recovery(Some(started), evidence), degraded := !(now - started >= b.hysteresis && evidence >= b.threshold))
  }

  /** A new epoch: nothing heard or reported before counts any more. */
  function Reset(s: State): State {
    Degrade(s.(pending := [], active := map[], epoch := s.epoch + 1))
  }

  function ResetNotice(s: State): Adjudication {
    Adjudication(Discontinued, None, [], Reset(s).epoch, ByReset)
  }

  // ---- matching ----

  function Retain(active: map<Digest, Retained>, h: Digest, expiresAt: int): map<Digest, Retained> {
    active[h := Retained(expiresAt, 1 + if h in active then active[h].count else 0)]
  }

  function Consume(active: map<Digest, Retained>, h: Digest): map<Digest, Retained> {
    if h !in active || active[h].count == 0 then active
    else if active[h].count == 1 then active - {h}
    else active[h := active[h].(count := active[h].count - 1)]
  }

  /** The first waiting entry of this epoch with the identity `h`. */
  function FirstMatch(pending: seq<Pending>, h: Digest, epoch: nat): Option<nat> {
    if pending == [] then None
    else if pending[0].epoch == epoch && pending[0].hash == h then Some(0)
    else
      var rest := FirstMatch(pending[1..], h, epoch);
      if rest.None? then None else Some(rest.value + 1)
  }

  lemma {:induction false} FirstMatchIs(pending: seq<Pending>, h: Digest, epoch: nat)
    ensures var r := FirstMatch(pending, h, epoch);
            && (r.Some? ==> r.value < |pending| && pending[r.value].epoch == epoch && pending[r.value].hash == h)
            && (forall i :: 0 <= i < (if r.Some? then r.value else |pending|) ==>
                              !(pending[i].epoch == epoch && pending[i].hash == h))
  {
    if pending != [] && !(pending[0].epoch == epoch && pending[0].hash == h) {
      FirstMatchIs(pending[1..], h, epoch);
      assert forall i :: 0 < i < |pending| ==> pending[i] == pending[1..][i - 1];
    }
  }

  function Remove(pending: seq<Pending>, i: nat): seq<Pending> {
    if i < |pending| then pending[..i] + pending[i + 1..] else pending
  }

  function Matched(s: State, event: R.Event, h: Digest): Adjudication {
    Adjudication(MatchedCopy, Some(event), h, s.epoch, ByMatch)
  }

  /** A retained report takes the first waiting copy, if there is one. */
  function MatchPending(b: Budgets, s: State, h: Digest, now: int): State {
    var i := FirstMatch(s.pending, h, s.epoch);
    var s1 := if i.None? then s else s.(pending := Remove(s.pending, i.value), active := Consume(s.active, h));
    if s.pending == [] then s1 else RecordEvidence(b, s1, now)
  }

  function MatchOutput(s: State, h: Digest): seq<Adjudication> {
    var i := FirstMatch(s.pending, h, s.epoch);
    if i.Some? && i.value < |s.pending| then [Matched(s, s.pending[i.value].event, h)] else []
  }

  // ---- reports ----

  predicate IsReport(e: BusEvent) {
    e.AttemptComplete? && e.success && e.request.Some?
  }

  /** The gateway now speaks from another address than before. */
  predicate AddressChanges(local: LocalAddress, address: Byte) {
    address != 0 && local.known && local.address != address
  }

  function Addressed(s: State, address: Byte): State {
    if address == 0 then s
    else if !s.local.known then s.(local := LocalAddress(true, address, s.epoch))
    else if s.local.address == address then s
    else s.(local := LocalAddress(true, address, s.local.epoch + 1))
  }

  /** The state in which a report is matched: its address is known, and a new one starts a new epoch. */
  function Situated(s: State, address: Byte): State {
    if AddressChanges(s.local, address) then Reset(Addressed(s, address)) else Addressed(s, address)
  }

  function Report(b: Budgets, s: State, h: Digest, now: int): State {
    RecordEvidence(b, MatchPending(b, s.(active := Retain(s.active, h, now + b.retention)), h, now), now)
  }

  function HandleBus(cfg: Config, s: State, e: BusEvent, now: int): State {
    var s1 := Expire(s, now);
    if e.ObserverFault? then Degrade(s1.(active := map[]))
    else if !IsReport(e) then s1
    else
      var s2 := Situated(s1, e.request.value.source);
      var h := ReportHash(cfg, e);
      if h.None? then Degrade(s2) else Report(cfg.budgets, s2, h.value, now)
  }

  function BusOutput(cfg: Config, s: State, e: BusEvent, now: int): seq<Adjudication> {
    var s1 := Expire(s, now);
    Releases(s, Due(s.pending, now)) +
    if !IsReport(e) then []
    else
      var address := e.request.value.source;
      var s2 := Situated(s1, address);
      var h := ReportHash(cfg, e);
      (if AddressChanges(s1.local, address) then [ResetNotice(s1)] else [])
      + (if h.None? then [] else MatchOutput(s2, h.value))
  }

  // ---- passive copies ----

  predicate HasReport(s: State, h: Digest) {
    h in s.active && s.active[h].count > 0
  }

  function Copy(cfg: Config, s: State, e: R.Event, h: Digest, thirdParty: bool, now: int): State {
    if HasReport(s, h) then RecordEvidence(cfg.budgets, s.(active := Consume(s.active, h)), now)
    else if |s.pending| >= cfg.budgets.capacity then Degrade(s)
    else
      RecordEvidence(cfg.budgets,
                     s.(pending := s.pending + [Pending(e, h, thirdParty, now + cfg.budgets.grace, s.epoch)]), now)
  }

  function CopyOutput(cfg: Config, s: State, e: R.Event, h: Digest): seq<Adjudication> {
    if HasReport(s, h) then [Matched(s, e, h)]
    else if |s.pending| >= cfg.budgets.capacity then [Adjudication(Observability, Some(e), h, s.epoch, ByOverflow)]
    else []
  }

  function HandlePassive(cfg: Config, s: State, e: R.Event, thirdParty: bool, now: int): State {
    var s1 := Expire(s, now);
    match Hear(cfg, s.local, e)
    case Boundary => Reset(s1)
    case Evidence => RecordEvidence(cfg.budgets, s1, now)
    case Immediate(_) => s1
    case Eligible(h) => Copy(cfg, s1, e, h, thirdParty, now)
  }

  function PassiveOutput(cfg: Config, s: State, e: R.Event, now: int): seq<Adjudication> {
    var s1 := Expire(s, now);
    Releases(s, Due(s.pending, now)) +
    match Hear(cfg, s.local, e)
    case Boundary => [ResetNotice(s1)]
    case Evidence => []
    case Immediate(inbound) => [Adjudication(if inbound then LocalInbound else Observability, Some(e), [], s.epoch, AtOnce)]
    case Eligible(h) => CopyOutput(cfg, s1, e, h)
  }

  // ---- the machine ----

  function Next(cfg: Config, s: State, i: Input): State {
    match i
    case Bus(e, now) => HandleBus(cfg, s, e, now)
    case Passive(e, thirdParty, now) => HandlePassive(cfg, s, e, thirdParty, now)
    case Tick(now) => s.(pending := Waiting(s.pending, now))
    case CriticalReset(_) => Reset(s)
  }

  function Emit(cfg: Config, s: State, i: Input): seq<Adjudication> {
    match i
    case Bus(e, now) => BusOutput(cfg, s, e, now)
    case Passive(e, _, now) => PassiveOutput(cfg, s, e, now)
    case Tick(now) => Releases(s, Due(s.pending, now))
    case CriticalReset(_) => [ResetNotice(s)]
  }

  function Dedup(cfg: Config): Machine<State, Input, Adjudication> {
    Machine((s, i) => Next(cfg, s, i), (s, i) => Emit(cfg, s, i))
  }

  function After(cfg: Config, s: State, inputs: seq<Input>): State {
    StateAfter(Dedup(cfg), s, inputs)
  }

  function Outputs(cfg: Config, s: State, inputs: seq<Input>): seq<Adjudication> {
    Output(Dedup(cfg), s, inputs)
  }
}
