/** One durable poll: the cursor it commits, the batch it offers and the cursor it returns. */
module Batch {
  import opened Model
  import opened Durable
  import opened Stamps

  predicate Offerable(d: Delivery, now: int) {
    Live(d) && !Due(d.expiresAt, now)
  }

  /** The offerable row in one slot of an agent's sequence: at most one id. */
  function AtSlot(d: map<nat, Delivery>, agent: string, slot: nat, now: int): set<nat> {
    set id | id in d && d[id].target == agent && d[id].slot == slot && Offerable(d[id], now)
  }

  ghost function Listed(ids: set<nat>): seq<nat> {
    if ids == {} then [] else var id :| id in ids; [id]
  }

  /** The offerable message ids of an agent in slots lo to hi, in slot order. */
  ghost function Ordered(d: map<nat, Delivery>, agent: string, lo: nat, hi: nat, now: int): seq<nat>
    decreases hi - lo
  {
    if lo >= hi then [] else Listed(AtSlot(d, agent, lo, now)) + Ordered(d, agent, lo + 1, hi, now)
  }

  function Size(messages: map<nat, Message>, id: nat): nat {
    if id in messages then messages[id].size else 0
  }

  /** How many of the ids fit, when k of them with used bytes are already taken: a count
      limit, and a byte limit that the first event alone may exceed. */
  function Fit(messages: map<nat, Message>, ids: seq<nat>, maxEvents: nat, maxBytes: nat, k: nat, used: nat): nat
    requires k <= |ids|
    decreases |ids| - k
  {
    if k == |ids| || k >= maxEvents || (k > 0 && used + Size(messages, ids[k]) > maxBytes) then k
    else Fit(messages, ids, maxEvents, maxBytes, k + 1, used + Size(messages, ids[k]))
  }

  const FALLBACK_EVENTS: nat := 10000
  const MAX_BATCH_BYTES: nat := 33_554_432

  /** The limits of a durable batch: a configured cap that is off, or too large, is replaced. */
  function BatchEvents(cfg: Config): (n: nat)
    ensures n > 0
  {
    if cfg.maxEvents <= 0 then FALLBACK_EVENTS else cfg.maxEvents
  }

  function BatchBytes(cfg: Config): (n: nat)
    ensures 0 < n <= MAX_BATCH_BYTES
  {
    if cfg.maxBytes <= 0 || cfg.maxBytes > MAX_BATCH_BYTES then MAX_BATCH_BYTES else cfg.maxBytes
  }

  function EventLimit(cfg: Config, limit: int): (n: nat)
    ensures n > 0
  {
    if 0 < limit < BatchEvents(cfg) then limit else BatchEvents(cfg)
  }

  /** The requested cursor, forced between the acknowledged cursor and the end. */
  function Clamp(c: Cursor, requested: int): nat {
    var floor := if requested < c.acked then c.acked else requested;
    if floor > c.next then c.next else floor
  }

  /** Committing a cursor: the row is created if absent, and a move past the acknowledged
      prefix marks that prefix received. */
  function Advanced(db: Tables, agent: string, cursor: nat, now: int): Tables {
    var c := CursorOf(db, agent);
    if cursor > c.acked then
      db.(cursors := db.cursors[agent := Cursor(c.next, cursor)],
          deliveries := AckPrefix(db.deliveries, agent, cursor, now))
    else
      db.(cursors := db.cursors[agent := c])
  }

  ghost function Chosen(cfg: Config, db: Tables, agent: string, cursor: nat, limit: int, now: int): seq<nat> {
    var ids := Ordered(db.deliveries, agent, cursor, CursorOf(db, agent).next, now);
    ids[..Count(cfg, db, ids, limit)]
  }

  function Count(cfg: Config, db: Tables, ids: seq<nat>, limit: int): (k: nat)
    ensures k <= |ids|
  {
    FitBound(db.messages, ids, EventLimit(cfg, limit), BatchBytes(cfg), 0, 0);
    Fit(db.messages, ids, EventLimit(cfg, limit), BatchBytes(cfg), 0, 0)
  }

  lemma {:induction false} FitBound(messages: map<nat, Message>, ids: seq<nat>, maxEvents: nat, maxBytes: nat, k: nat,
                                    used: nat)
    requires k <= |ids|
    ensures k <= Fit(messages, ids, maxEvents, maxBytes, k, used) <= |ids|
    decreases |ids| - k
  {
    if !(k == |ids| || k >= maxEvents || (k > 0 && used + Size(messages, ids[k]) > maxBytes)) {
      FitBound(messages, ids, maxEvents, maxBytes, k + 1, used + Size(messages, ids[k]));
    }
  }

  function Elements(ids: seq<nat>): set<nat> {
    set id | id in ids
  }

  datatype Poll = Poll(db: Tables, batch: seq<nat>, cursor: nat)

  function AfterLast(d: map<nat, Delivery>, batch: seq<nat>, cursor: nat): nat {
    if |batch| > 0 && batch[|batch| - 1] in d then d[batch[|batch| - 1]].slot + 1 else cursor
  }

  /** One poll on the tables. */
  ghost function PollOnce(cfg: Config, db: Tables, agent: string, requested: int, limit: int, now: int): Poll
  {
    var cursor := Clamp(CursorOf(db, agent), requested);
    var db1 := Advanced(db, agent, cursor, now);
    var batch := Chosen(cfg, db1, agent, cursor, limit, now);
    Poll(db1.(messages := OfferAll(db1.messages, Elements(batch), now)),
         batch,
         AfterLast(db1.deliveries, batch, cursor))
  }
}
