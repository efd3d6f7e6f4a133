/** The delivery protocol as a state machine: the durable tables, the process that holds the
    volatile projection and the push jobs, and one label per atomic step. */
module Protocol {
  import opened Model
  import opened Durable
  import opened Texts
  import opened Stamps
  import opened Batch

  /** An entry of the in-memory duplicate index. */
  datatype Entry = Entry(id: nat, createdAt: int)

  /** The volatile state. held is an acceptance between its commit and its publication; the
      store lock is taken meanwhile. A push job is held, claimed by the delivery loop, queued,
      running in a worker, or detached (a background failure write). wg is the wait group. */
  datatype Memory = Memory(
    messages: map<nat, Message>,
    entries: map<Key, Entry>,
    nextMessage: nat,
    held: Option<Acceptance>,
    claimed: multiset<nat>,
    queue: seq<nat>,
    running: multiset<nat>,
    detached: multiset<nat>,
    wg: int,
    stopped: bool,
    closed: bool,
    queueClosed: bool,
    recovered: bool)

  datatype State = State(clock: int, db: Tables, process: Option<Memory>)

  datatype Label =
    | Commit(send: Send, dbFails: bool)
    | Publish
    | Tidy(kept: map<nat, Message>)
    | PollInbox(agent: string, requested: int, limit: int)
    | Report(id: nat, actor: string, next: Message)
    | Claim(chosen: set<nat>, pushable: set<string>)
    | Enqueue(job: nat)
    | Start
    | Succeed(done: nat, attempts: nat)
    | GiveUp(failed: nat, tries: nat)
    | WriteFailure(late: nat)
    | Prune
    | StopLoops
    | BeginClose
    | CloseQueue
    | RecoverLeases
    | FinishClose
    | Crash
    | Restart

  // ---- sending ----

  datatype Outcome = Refused | Duplicate(id: nat) | Aborted | Committed(a: Acceptance)

  predicate InWindow(cfg: Config, acceptedAt: int, now: int) {
    now - acceptedAt <= cfg.window
  }

  /** At least a second of the window is left, so that no text comparison can misjudge it. */
  predicate Secure(cfg: Config, acceptedAt: int, now: int) {
    now + BILLION <= acceptedAt + cfg.window
  }

  /** What the send decides before anything becomes visible. */
  ghost function Decide(cfg: Config, db: Tables, p: Memory, send: Send, dbFails: bool, now: int): Outcome {
    var key := SendKey(send);
    if send.target.Unregistered? then Refused
    else if key.Some? && key.value in p.entries && InWindow(cfg, p.entries[key.value].createdAt, now) then
      Duplicate(p.entries[key.value].id)
    else
      var m := Plan(cfg, send, now);
      if m.None? then Refused
      else
        var a := Acceptance(p.nextMessage + 1, m.value, key, send.target == Active(true));
        if dbFails || Conflicts(db, a) then Aborted else Committed(a)
  }

  /** The wait group and the queue take a job, or say why not. */
  predicate QueueOpen(cfg: Config, p: Memory) {
    !p.closed && |p.queue| < cfg.queueSize
  }

  /** The acceptance becomes visible in the maps. */
  function Visible(p: Memory, a: Acceptance): Memory {
    p.(messages := p.messages[a.id := a.message],
       nextMessage := a.id,
       entries := if a.key.None? then p.entries
                  else p.entries[a.key.value := Entry(a.id, a.message.createdAt)],
       held := None)
  }

  /** Publishing a committed acceptance; a push job that cannot be queued becomes a detached
      failure write, unless shutdown has begun. */
  function Published(cfg: Config, p: Memory, a: Acceptance): Memory {
    var job := a.push && !p.closed;
    var queued := job && QueueOpen(cfg, p);
    Visible(p, a).(queue := if queued then p.queue + [a.id] else p.queue,
                   detached := if job && !queued then p.detached + multiset{a.id} else p.detached,
                   wg := if job then p.wg + 1 else p.wg)
  }

  // ---- push ----

  const CAP := 30_000_000_000

  /** The delay before the next push cycle: doubled per attempt and capped. */
  function Backoff(base: nat, attempts: nat): nat {
    if attempts <= 1 then base
    else if 2 * Backoff(base, attempts - 1) >= CAP then CAP
    else 2 * Backoff(base, attempts - 1)
  }

  function Doubled(base: nat, k: nat): nat {
    if k == 0 then base else 2 * Doubled(base, k - 1)
  }

  /** From the second attempt on the delay is the base doubled once per further attempt, cut
      off at the cap; the first delay is the base itself. */
  lemma {:induction false} BackoffIsCappedDoubling(base: nat, attempts: nat)
    ensures attempts <= 1 ==> Backoff(base, attempts) == base
    ensures attempts >= 2 ==>
              Backoff(base, attempts) == if Doubled(base, attempts - 1) >= CAP then CAP else Doubled(base, attempts - 1)
  {
    if attempts >= 2 {
      BackoffIsCappedDoubling(base, attempts - 1);
    }
  }

  function FailureWritten(cfg: Config, db: Tables, id: nat, attempts: nat, now: int): Tables {
    db.(deliveries := PushFailed(db.deliveries, id, attempts, now, now + Backoff(cfg.baseBackoff, attempts)))
  }

  predicate Claimable(d: Delivery, pushable: set<string>, now: int) {
    && d.status.Pending? && (d.nextAttempt.None? || Due(d.nextAttempt.value, now))
    && !Due(d.expiresAt, now) && d.target in pushable
  }

  /** ORDER BY next_attempt_at, delivery_seq; an empty time sorts first. */
  predicate Before(a: Delivery, b: Delivery) {
    match (a.nextAttempt, b.nextAttempt)
    case (None, None) => a.slot <= b.slot
    case (None, Some(_)) => true
    case (Some(_), None) => false
    case (Some(x), Some(y)) => Sooner(x, y) || (x == y && a.slot <= b.slot)
  }

  const CLAIM_LIMIT: nat := 32

  /** A first batch, in claim order, of the rows that are due for a push. */
  ghost predicate FirstBatch(d: map<nat, Delivery>, chosen: set<nat>, pushable: set<string>, now: int) {
    var due := set id | id in d && Claimable(d[id], pushable, now);
    && chosen <= due
    && |chosen| == (if |due| < CLAIM_LIMIT then |due| else CLAIM_LIMIT)
    && forall i, j :: i in chosen && j in due && j !in chosen ==> Before(d[i], d[j])
  }

  // ---- memory projections ----

  /** A handed-out message in memory takes over the durable delivery time. */
  function Projected(m: Message, durable: Message): Message {
    OfferedAt(m, durable.deliveredAt)
  }

  function ProjectAll(mem: map<nat, Message>, durable: map<nat, Message>, ids: set<nat>): map<nat, Message> {
    map id | id in mem :: if id in ids && id in durable then Projected(mem[id], durable[id]) else mem[id]
  }

  function LiveEntries(cfg: Config, entries: map<Key, Entry>, now: int): map<Key, Entry> {
    map k | k in entries && InWindow(cfg, entries[k].createdAt, now) :: entries[k]
  }

  /** What a starting process loads. */
  function Loaded(db: Tables, now: int): Memory {
    Memory(db.messages,
           map k | k in db.receipts && !Sooner(db.receipts[k].expiresAt, now) ::
               Entry(db.receipts[k].id, db.receipts[k].acceptedAt),
           db.nextMessage, None, multiset{}, [], multiset{}, multiset{}, 0, false, false, false, false)
  }

  // ---- the step relation ----

  /** When a running process can take a step. Steps that need the store lock wait while an
      acceptance is held between commit and publication. */
  ghost predicate Ready(cfg: Config, db: Tables, p: Memory, l: Label, now: int) {
    match l
    case Commit(send, _) => p.held.None? && ValidSend(send)
    case Publish => p.held.Some?
    case Tidy(kept) => p.held.None? && Thinned(kept, p.messages)
    case PollInbox(agent, _, _) => true
    case Report(id, actor, next) => p.held.None? && Reportable(p.messages, id, actor, next)
    case Claim(chosen, pushable) => !p.stopped && FirstBatch(ExpireDue(db.deliveries, now), chosen, pushable, now)
    case Enqueue(id) => p.held.None? && id in p.claimed
    case Start => |p.queue| > 0
    case Succeed(id, _) => id in p.running
    case GiveUp(id, _) => id in p.running
    case WriteFailure(id) => id in p.detached
    case Prune => !p.stopped
    case StopLoops => p.claimed == multiset{}
    case BeginClose => p.held.None? && p.stopped && !p.closed
    case CloseQueue => p.closed && p.wg == 0 && !p.queueClosed
    case RecoverLeases => p.queueClosed && !p.recovered
    case FinishClose => p.recovered
    case Crash => true
    case Restart => false
  }

  /** A sweep may drop messages and move their lifecycle, never rewrite their content. */
  ghost predicate Thinned(kept: map<nat, Message>, messages: map<nat, Message>) {
    forall id :: id in kept ==> id in messages && SameEnvelope(kept[id], messages[id]) && MessageOk(kept[id])
  }

  /** Acks and events come from the recipient of a request the projection still holds. */
  predicate Reportable(messages: map<nat, Message>, id: nat, actor: string, next: Message) {
    && id in messages && messages[id].to == actor
    && messages[id].kind.Request? && SameEnvelope(next, messages[id]) && MessageOk(next)
  }

  ghost predicate Enabled(cfg: Config, s: State, l: Label, now: int) {
    && s.clock <= now
    && if l.Restart? then s.process.None?
       else s.process.Some? && Ready(cfg, s.db, s.process.value, l, now)
  }

  // ---- effects on the tables ----

  function Reported(db: Tables, id: nat, next: Message, now: int): Tables {
    db.(messages := db.messages[id := next], deliveries := ReceiveRow(db.deliveries, id, now))
  }

  function Claimed(db: Tables, chosen: set<nat>, now: int): Tables {
    db.(deliveries := ClaimRows(ExpireDue(db.deliveries, now), chosen),
        messages := OfferAll(db.messages, chosen, now))
  }

  function SuccessWritten(db: Tables, id: nat, attempts: nat, now: int): Tables {
    db.(deliveries := PushSucceeded(db.deliveries, id, attempts, now))
  }

  function ClosedTables(db: Tables, now: int): Tables {
    db.(deliveries := RecoverAtClose(db.deliveries, now))
  }

  function Reopened(cfg: Config, db: Tables, now: int): Tables {
    Pruned(cfg, db.(deliveries := Recover(db.deliveries)), now)
  }

  /** The tables after a step. */
  ghost function NextTables(cfg: Config, s: State, l: Label, now: int): Tables
    requires Enabled(cfg, s, l, now)
  {
    var db := s.db;
    match l
    case Commit(send, dbFails) =>
      var o := Decide(cfg, db, s.process.value, send, dbFails, now);
      if o.Committed? then Accepted(cfg, db, o.a) else db
    case PollInbox(agent, requested, limit) => PollOnce(cfg, db, agent, requested, limit, now).db
    case Report(id, _, next) => Reported(db, id, next, now)
    case Claim(chosen, _) => Claimed(db, chosen, now)
    case Enqueue(id) =>
      if id in db.messages && QueueOpen(cfg, s.process.value) then db else FailureWritten(cfg, db, id, 0, now)
    case Succeed(id, attempts) => SuccessWritten(db, id, attempts, now)
    case GiveUp(id, attempts) => FailureWritten(cfg, db, id, attempts, now)
    case WriteFailure(id) => FailureWritten(cfg, db, id, 0, now)
    case Prune => Pruned(cfg, db, now)
    case RecoverLeases => ClosedTables(db, now)
    case Restart => Reopened(cfg, db, now)
    case _ => db
  }

  // ---- effects on the process ----

  function Tidied(cfg: Config, p: Memory, kept: map<nat, Message>, now: int): Memory {
    p.(messages := kept, entries := LiveEntries(cfg, p.entries, now))
  }

  function Polled(p: Memory, r: Poll): Memory {
    p.(messages := ProjectAll(p.messages, r.db.messages, Elements(r.batch)))
  }

  function Noted(p: Memory, id: nat, next: Message): Memory {
    p.(messages := p.messages[id := next])
  }

  function Holding(p: Memory, o: Outcome): Memory {
    if o.Committed? then p.(held := Some(o.a)) else p
  }

  function WithClaims(p: Memory, chosen: set<nat>): Memory {
    p.(claimed := p.claimed + multiset(chosen))
  }

  /** The delivery loop hands a claimed message to the queue, or records the failure itself. */
  function Scheduled(cfg: Config, db: Tables, p: Memory, id: nat): Memory {
    var known := id in db.messages;
    var queued := known && QueueOpen(cfg, p);
    p.(claimed := p.claimed - multiset{id},
       messages := if known then ProjectAll(p.messages, db.messages, {id}) else p.messages,
       queue := if queued then p.queue + [id] else p.queue,
       wg := if queued then p.wg + 1 else p.wg)
  }

  function Started(p: Memory): Memory
    requires |p.queue| > 0
  {
    p.(queue := p.queue[1..], running := p.running + multiset{p.queue[0]})
  }

  function JobDone(p: Memory, id: nat): Memory {
    p.(running := p.running - multiset{id}, wg := p.wg - 1)
  }

  function DetachedDone(p: Memory, id: nat): Memory {
    p.(detached := p.detached - multiset{id}, wg := p.wg - 1)
  }

  /** The process after a step. */
  ghost function NextProcess(cfg: Config, s: State, l: Label, now: int): Option<Memory>
    requires Enabled(cfg, s, l, now)
  {
    if l.Restart? then Some(Loaded(Reopened(cfg, s.db, now), now)) else
    var db := s.db;
    var p := s.process.value;
    match l
    case Commit(send, dbFails) => Some(Holding(p, Decide(cfg, db, p, send, dbFails, now)))
    case Publish => Some(Published(cfg, p, p.held.value))
    case Tidy(kept) => Some(Tidied(cfg, p, kept, now))
    case PollInbox(agent, requested, limit) => Some(Polled(p, PollOnce(cfg, db, agent, requested, limit, now)))
    case Report(id, _, next) => Some(Noted(p, id, next))
    case Claim(chosen, _) => Some(WithClaims(p, chosen))
    case Enqueue(id) => Some(Scheduled(cfg, db, p, id))
    case Start => Some(Started(p))
    case Succeed(id, _) => Some(JobDone(p, id))
    case GiveUp(id, _) => Some(JobDone(p, id))
    case WriteFailure(id) => Some(DetachedDone(p, id))
    case StopLoops => Some(p.(stopped := true))
    case BeginClose => Some(p.(closed := true))
    case CloseQueue => Some(p.(queueClosed := true))
    case RecoverLeases => Some(p.(recovered := true))
    case FinishClose => None
    case Crash => None
    case _ => s.process
  }

  ghost function Apply(cfg: Config, s: State, l: Label, now: int): State
    requires Enabled(cfg, s, l, now)
  {
    State(now, NextTables(cfg, s, l, now), NextProcess(cfg, s, l, now))
  }
}
