/** The SQLite tables of the bus and the statements that write them. A table is a map
    from its key to its row; a statement that updates many rows is one map update. */
module Durable {
  import opened Model
  import opened Stamps

  datatype Status = Pending | Attempting | Received | Failed

  /** A row of deliveries, keyed by its UNIQUE message id. */
  datatype Delivery = Delivery(
    target: string,
    slot: nat,
    status: Status,
    nextAttempt: Option<int>,
    attempts: nat,
    receivedAt: Option<int>,
    expiresAt: int)

  /** A row of delivery_cursors. */
  datatype Cursor = Cursor(next: nat, acked: nat)

  /** The idempotency key and its row. */
  datatype Key = Key(from: string, to: string, requestId: string)
  datatype Receipt = Receipt(id: nat, acceptedAt: int, expiresAt: int)

  datatype Tables = Tables(
    messages: map<nat, Message>,
    deliveries: map<nat, Delivery>,
    cursors: map<string, Cursor>,
    receipts: map<Key, Receipt>,
    nextMessage: nat)

  /** Limits and windows, fixed for the lifetime of the database. A zero maxAge or
      retention disables that rule; maxEvents and maxBytes are as configured. */
  datatype Config = Config(
    window: nat,
    grace: nat,
    queueSize: nat,
    baseBackoff: nat,
    maxAge: nat,
    retention: nat,
    maxEvents: int,
    maxBytes: int)

  /** Status is neither received nor failed. */
  predicate Live(d: Delivery) {
    d.status.Pending? || d.status.Attempting?
  }

  // ---- acceptance ----

  /** The registration of the addressed agent at the time of the send. */
  datatype Target = Broadcast | Unregistered | Active(push: bool) | Lapsed(expiredAt: int)

  /** A validated send; human marks an injection, which carries no idempotency key. */
  datatype Send = Send(kind: Kind, from: string, to: string, requestId: string,
                       size: nat, ttl: nat, human: bool, target: Target)

  predicate ValidSend(s: Send) {
    && (s.to == "" <==> s.target.Broadcast?)
    && (s.to == "" ==> s.human)
    && (s.human ==> s.kind.Inform?)
  }

  datatype Acceptance = Acceptance(id: nat, message: Message, key: Option<Key>, push: bool)

  function SendKey(s: Send): Option<Key> {
    if s.human then None else Some(Key(s.from, s.to, s.requestId))
  }

  /** The message a send would create, or None when the target cannot take it. */
  function Plan(cfg: Config, s: Send, now: int): Option<Message> {
    if s.target.Unregistered? || (s.target.Lapsed? && s.target.expiredAt + cfg.grace < now) then
      None
    else
      var lapsed := s.target.Lapsed?;
      var phase :=
        if s.kind.Request? then (if lapsed then Phase.Pending else Waiting)
        else if s.human && lapsed then Phase.Pending
        else Completed;
      Some(Message(
             s.kind, s.from, s.to, s.requestId, s.size, now,
             Some(now + s.ttl),
             if lapsed then Some(s.target.expiredAt + cfg.grace) else None,
             phase,
             if Terminal(phase) then Some(now) else None,
             if s.kind.Request? && !lapsed then Some(now) else None,
             None,
             lapsed))
  }

  function CursorOf(db: Tables, agent: string): Cursor {
    if agent in db.cursors then db.cursors[agent] else Cursor(0, 0)
  }

  /** The primary key (target_agent_id, delivery_seq) is taken. */
  ghost predicate SlotTaken(d: map<nat, Delivery>, agent: string, slot: nat) {
    exists id :: id in d && d[id].target == agent && d[id].slot == slot
  }

  /** A key constraint would make the acceptance transaction fail. */
  ghost predicate Conflicts(db: Tables, a: Acceptance) {
    || (a.message.to != ""
        && (a.id in db.deliveries || SlotTaken(db.deliveries, a.message.to, CursorOf(db, a.message.to).next)))
    || (a.key.Some? && a.key.value in db.receipts)
  }

  function NewDelivery(db: Tables, a: Acceptance): Delivery {
    var expiry := DeliveryExpiry(a.message);
    Delivery(a.message.to, CursorOf(db, a.message.to).next,
             if a.push then Attempting else Status.Pending,
             Some(a.message.createdAt), 0, None,
             if expiry.Some? then expiry.value else a.message.createdAt)
  }

  /** The tables after the acceptance transaction has committed. */
  function Accepted(cfg: Config, db: Tables, a: Acceptance): Tables {
    var m := a.message;
    var row := NewDelivery(db, a);
    db.(messages := db.messages[a.id := m],
        nextMessage := a.id,
        deliveries := if m.to == "" then db.deliveries else db.deliveries[a.id := row],
        cursors := if m.to == "" then db.cursors
                   else db.cursors[m.to := Cursor(row.slot + 1, CursorOf(db, m.to).acked)],
        receipts := if a.key.None? then db.receipts
                    else db.receipts[a.key.value := Receipt(a.id, m.createdAt, m.createdAt + cfg.window)])
  }

  // ---- statements on deliveries ----

  /** Rows at or past their deadline fail. */
  function ExpireDue(d: map<nat, Delivery>, now: int): map<nat, Delivery> {
    map id | id in d :: if Live(d[id]) && Due(d[id].expiresAt, now)
                        then d[id].(status := Failed, nextAttempt := None) else d[id]
  }

  /** A committed cursor proves receipt of every earlier row. */
  function AckPrefix(d: map<nat, Delivery>, agent: string, cursor: nat, now: int): map<nat, Delivery> {
    map id | id in d :: if d[id].target == agent && d[id].slot < cursor && Live(d[id])
                        then d[id].(status := Received, receivedAt := Some(now)) else d[id]
  }

  /** An ack or event from the recipient proves receipt of its message. */
  function ReceiveRow(d: map<nat, Delivery>, id: nat, now: int): map<nat, Delivery> {
    if id in d && Live(d[id]) then d[id := d[id].(status := Received, receivedAt := Some(now))] else d
  }

  function PushSucceeded(d: map<nat, Delivery>, id: nat, attempts: nat, now: int): map<nat, Delivery> {
    if id in d && d[id].status.Attempting?
    then d[id := d[id].(status := Received, receivedAt := Some(now),
                        attempts := d[id].attempts + attempts, nextAttempt := None)]
    else d
  }

  function PushFailed(d: map<nat, Delivery>, id: nat, attempts: nat, now: int, retryAt: int): map<nat, Delivery> {
    if id in d && d[id].status.Attempting?
    then
      var due := Due(d[id].expiresAt, now);
      d[id := d[id].(status := if due then Failed else Status.Pending,
                     attempts := d[id].attempts + attempts,
                     nextAttempt := if due then None else Some(retryAt))]
    else d
  }

  function ClaimRows(d: map<nat, Delivery>, chosen: set<nat>): map<nat, Delivery> {
    map id | id in d :: if id in chosen && d[id].status.Pending? then d[id].(status := Attempting) else d[id]
  }

  /** Startup recovery: no process holds a lease any more. */
  function Recover(d: map<nat, Delivery>): map<nat, Delivery> {
    map id | id in d :: if d[id].status.Attempting? then d[id].(status := Status.Pending) else d[id]
  }

  /** Shutdown recovery also makes a missing retry time explicit. */
  function RecoverAtClose(d: map<nat, Delivery>, now: int): map<nat, Delivery> {
    map id | id in d :: if d[id].status.Attempting?
                        then d[id].(status := Status.Pending,
                                    nextAttempt := if d[id].nextAttempt.None? then Some(now) else d[id].nextAttempt)
                        else d[id]
  }

  function OfferAll(messages: map<nat, Message>, ids: set<nat>, now: int): map<nat, Message> {
    map id | id in messages :: if id in ids then Offered(messages[id], now) else messages[id]
  }

  // ---- retention ----

  predicate PastRetention(cfg: Config, m: Message, now: int) {
    || (cfg.maxAge > 0 && Sooner(m.createdAt, now - cfg.maxAge))
    || (cfg.retention > 0 && Terminal(m.phase)
        && Sooner(if m.terminalAt.Some? then m.terminalAt.value else m.createdAt, now - cfg.retention))
  }

  /** Deleting a message cascades to its delivery row. */
  function Pruned(cfg: Config, db: Tables, now: int): Tables {
    var d := ExpireDue(db.deliveries, now);
    var kept := map id | id in db.messages
                         && (!PastRetention(cfg, db.messages[id], now) || (id in d && Live(d[id])))
                       :: db.messages[id];
    db.(messages := kept,
        deliveries := map id | id in d && id in kept :: d[id],
        receipts := map k | k in db.receipts && !Sooner(db.receipts[k].expiresAt, now) :: db.receipts[k])
  }

  // ---- the durable invariant ----

  predicate RowOk(db: Tables, id: nat)
    requires id in db.deliveries
  {
    var d := db.deliveries[id];
    && id in db.messages && db.messages[id].to == d.target && d.target != ""
    && d.target in db.cursors && d.slot < db.cursors[d.target].next
    && (Live(d) ==> db.cursors[d.target].acked <= d.slot)
    && (d.status.Received? <==> d.receivedAt.Some?)
  }

  ghost predicate SlotsUnique(d: map<nat, Delivery>) {
    forall i, j :: i in d && j in d && i != j ==> d[i].target != d[j].target || d[i].slot != d[j].slot
  }

  ghost predicate TablesOk(cfg: Config, db: Tables) {
    && (forall id :: id in db.deliveries ==> RowOk(db, id))
    && (forall id :: id in db.messages ==> id <= db.nextMessage)
    && (forall a :: a in db.cursors ==> db.cursors[a].acked <= db.cursors[a].next)
    && SlotsUnique(db.deliveries)
    && (forall k :: k in db.receipts ==>
          db.receipts[k].id <= db.nextMessage && db.receipts[k].expiresAt == db.receipts[k].acceptedAt + cfg.window)
  }

  const EMPTY_TABLES := Tables(map[], map[], map[], map[], 0)
}
