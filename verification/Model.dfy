/** Messages as both stores hold them, and the transitions that several operations share. */
module Model {

  datatype Option<+T> = None | Some(value: T)

  datatype Kind = Request | Response | Inform

  /** The application lifecycle of a message. */
  datatype Phase = Pending | Waiting | Executing | Completed | Rejected | Error

  /** Message content is opaque: only its size in an inbox event matters. Times are
      integers; None is the zero time. */
  datatype Message = Message(
    kind: Kind,
    from: string,
    to: string,
    requestId: string,
    size: nat,
    createdAt: int,
    ttlExpiresAt: Option<int>,
    graceUntil: Option<int>,
    phase: Phase,
    terminalAt: Option<int>,
    deliveredAt: Option<int>,
    lastProgressAt: Option<int>,
    queued: bool)

  predicate Terminal(p: Phase) {
    p.Completed? || p.Rejected? || p.Error?
  }

  /** The part of a message that no later operation changes. */
  predicate SameEnvelope(a: Message, b: Message) {
    && a.kind == b.kind && a.from == b.from && a.to == b.to
    && a.requestId == b.requestId && a.size == b.size && a.createdAt == b.createdAt
    && a.ttlExpiresAt == b.ttlExpiresAt && a.graceUntil == b.graceUntil
  }

  /** The transport deadline: the earlier of TTL and registration grace. */
  function DeliveryExpiry(m: Message): Option<int> {
    if m.graceUntil.Some? && (m.ttlExpiresAt.None? || m.graceUntil.value < m.ttlExpiresAt.value)
    then m.graceUntil
    else m.ttlExpiresAt
  }

  /** A message that a poll or a push claim hands out, with the delivery time at hand. */
  function OfferedAt(m: Message, at: Option<int>): Message {
    m.(queued := false,
       phase := if m.kind.Request? && m.phase.Pending? then Waiting else m.phase,
       deliveredAt := if m.deliveredAt.None? then at else m.deliveredAt)
  }

  /** What a poll or a push claim writes on the message. */
  function Offered(m: Message, at: int): Message {
    OfferedAt(m, Some(at))
  }

  /** What holds of every message, in the database and in memory. A row that was terminal before
      terminal times were kept has none. */
  predicate MessageOk(m: Message) {
    && (m.terminalAt.Some? ==> Terminal(m.phase))
    && (m.phase.Waiting? || m.phase.Executing? ==> m.kind.Request?)
    && (m.kind.Request? && m.queued && !Terminal(m.phase) ==> m.phase.Pending?)
    && (m.kind.Request? && m.phase.Pending? ==> m.deliveredAt.None?)
  }

  /** Terminal without a terminal time. */
  predicate Untimed(m: Message) {
    Terminal(m.phase) && m.terminalAt.None?
  }

  /** Waiting or executing without a delivery time. */
  predicate Undated(m: Message) {
    (m.phase.Waiting? || m.phase.Executing?) && m.deliveredAt.None?
  }
}
