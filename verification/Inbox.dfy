/** The bounded per-agent inbox against the unbounded log of everything appended to it. */
module Inbox {
  import opened Model
  import opened Eviction

  /** An inbox entry carries a message id. */
  type Event = Logged<string>

  /** What an inbox stands for: a log and how much of its front is gone. */
  datatype View = View(log: seq<Event>, base: nat)

  ghost predicate ViewOk(v: View) {
    v.base <= |v.log|
  }

  ghost predicate Appended(caps: Caps, v: View, e: Event, w: View)
    requires ViewOk(v)
  {
    && w.log == v.log + [e]
    && v.base <= w.base < |w.log|
    && LeastDrop(caps, Sizes(w.log[v.base..]), w.base - v.base)
  }

  function Clamp(v: View, cursor: int): nat {
    if cursor < v.base then v.base else if cursor > |v.log| then |v.log| else cursor
  }

  /** Where a poll ends: at the end of the log, or after the limit if that comes first. */
  function Next(v: View, cursor: int, limit: int): nat
    requires ViewOk(v)
  {
    var c := Clamp(v, cursor);
    if limit > 0 && |v.log| - c > limit then c + limit else |v.log|
  }

  datatype Polled = Polled(events: seq<Event>, cursor: nat)

  class AgentInbox {
    const caps: Caps
    var events: seq<Event>
    var base: nat
    var bytes: int
    ghost var log: seq<Event>

    ghost predicate Valid()
      reads this
    {
      base <= |log| && events == log[base..] && bytes == Sum(Sizes(events))
    }

    ghost function Abstract(): (v: View)
      reads this
      requires Valid()
      ensures ViewOk(v)
    {
      View(log, base)
    }

    constructor (limits: Caps)
      ensures Valid() && caps == limits && Abstract() == View([], 0)
    {
      caps, events, base, bytes, log := limits, [], 0, 0, [];
    }

    /** Remove the oldest n events, moving the base and the byte count along. */
    method DropPrefix(n: int)
      requires Valid()
      modifies this`events, this`base, this`bytes
      ensures Valid() && base == old(base) + if 0 < n <= old(|events|) then n else 0
    {
      if n <= 0 || n > |events| { return; }
      var i := 0;
      assert Sizes(events)[0..] == Sizes(events);
      while i < n
        invariant events == old(events) && base == old(base)
        invariant 0 <= i <= n <= |events| && bytes == Sum(Sizes(events)[i..])
      {
        SumStep(Sizes(events), i);
        bytes := bytes - events[i].size;
        i := i + 1;
      }
      assert Sizes(events[n..]) == Sizes(events)[n..];
      events := events[n..];
      base := base + n;
    }

    /** Append an event, then drop the fewest oldest ones that meet both caps. */
    method Append(e: Event)
      requires Valid()
      modifies this
      ensures Valid() && Appended(caps, old(Abstract()), e, Abstract())
    {
      log := log + [e];
      SumAppend(Sizes(events), e.size);
      assert Sizes(events + [e]) == Sizes(events) + [e.size];
      events := events + [e];
      bytes := bytes + e.size;
      assert log[base..] == events;
      var drop := FindDrop(caps, Sizes(events), bytes);
      if drop > 0 {
        DropPrefix(drop);
      }
    }

    /** Retention removes an expired agent with its inbox, and registering again makes an empty
        one that counts from zero. */
    method Recreate()
      modifies this
      ensures Valid() && Abstract() == View([], 0)
    {
      events, base, bytes, log := [], 0, 0, [];
    }

    /** Answer a poll. The cursor acknowledges everything below it, so that much is dropped
        once the barrier has committed; when the barrier fails nothing changes. */
    method Poll(cursor: int, limit: int, barrier: bool) returns (r: Option<Polled>)
      requires Valid()
      modifies this`events, this`base, this`bytes
      ensures Valid()
      ensures r.None? <==> !barrier && Clamp(old(Abstract()), cursor) > old(base)
      ensures r.None? ==> Abstract() == old(Abstract())
      ensures r.Some? ==>
                var v := old(Abstract());
                && Abstract() == View(v.log, Clamp(v, cursor))
                && r.value == Polled(v.log[Clamp(v, cursor)..Next(v, cursor, limit)], Next(v, cursor, limit))
    {
      var at := cursor;
      if at < base { at := base; }
      var end := base + |events|;
      if at > end { at := end; }
      if at > base {
        if !barrier { return None; }
        DropPrefix(at - base);
      }
      if at < end {
        var out := events;
        if limit > 0 && |out| > limit { out := out[..limit]; }
        return Some(Polled(out, at + |out|));
      }
      return Some(Polled([], at));
    }
  }

  /** What one answer spans: from the cursor that was asked for, when the log still reaches it, to
      the end of the log or to the limit, never more than the limit. */
  lemma AnswerIs(v: View, cursor: int, limit: int)
    requires ViewOk(v)
    ensures var c, n := Clamp(v, cursor), Next(v, cursor, limit);
            && v.base <= c <= n <= |v.log|
            && (v.base <= cursor <= |v.log| ==> c == cursor)
            && (cursor < v.base ==> c == v.base) && (cursor > |v.log| ==> c == |v.log|)
            && (limit > 0 ==> n - c <= limit)
            && (n < |v.log| ==> limit > 0 && n - c == limit)
  {
  }

  /** An append leaves as many of the newest events as both caps allow, and always the new one. */
  lemma AppendKeeps(caps: Caps, v: View, e: Event, w: View, more: nat)
    requires ViewOk(v) && Appended(caps, v, e, w) && v.base <= more < w.base
    ensures caps.maxEvents > 0 ==> |w.log| - w.base <= caps.maxEvents
    ensures caps.maxBytes > 0 && |w.log| - w.base > 1 ==> Sum(Sizes(w.log[w.base..])) <= caps.maxBytes
    ensures || (caps.maxEvents > 0 && |w.log| - more > caps.maxEvents)
            || (caps.maxBytes > 0 && Sum(Sizes(w.log[more..])) > caps.maxBytes)
  {
    hide Sum;
    assert Sizes(w.log[v.base..])[more - v.base..] == Sizes(w.log[more..]);
    assert Sizes(w.log[v.base..])[w.base - v.base..] == Sizes(w.log[w.base..]);
    assert !Under(caps, Sizes(w.log[v.base..]), more - v.base);
  }

  // ---- a client that follows the cursors it is given ----

  datatype Step = Append(e: Event, after: View) | Poll(limit: int) | Reset

  /** A client's history with one inbox: where it stands, the log positions it was given, in
      order, and the positions evicted by appends. A reset begins a new log, for which nothing
      was given or evicted yet, while the client keeps its cursor. */
  datatype History = History(view: View, cursor: nat, got: seq<nat>, evicted: set<nat>)

  ghost predicate Takes(caps: Caps, h: History, s: Step, k: History)
    requires ViewOk(h.view)
  {
    match s
    case Append(e, after) =>
      && Appended(caps, h.view, e, after)
      && k == h.(view := after, evicted := h.evicted + Span(h.view.base, after.base))
    case Poll(limit) =>
      var c, n := Clamp(h.view, h.cursor), Next(h.view, h.cursor, limit);
      k == h.(view := View(h.view.log, c), cursor := n, got := h.got + Range(c, n))
    case Reset =>
      k == History(View([], 0), h.cursor, [], {})
  }

  function Range(a: nat, b: nat): (r: seq<nat>)
    requires a <= b
    ensures |r| == b - a && forall i :: 0 <= i < |r| ==> r[i] == a + i
  {
    seq(b - a, i requires 0 <= i < b - a => a + i)
  }

  function Span(a: nat, b: nat): (r: set<nat>)
    ensures forall p: nat :: p in r <==> a <= p < b
  {
    if a >= b then {} else Span(a, b - 1) + {b - 1}
  }

  ghost predicate Follows(caps: Caps, run: seq<History>, steps: seq<Step>) {
    && |run| == |steps| + 1 && (forall i :: 0 <= i < |run| ==> ViewOk(run[i].view))
    && forall i :: 0 <= i < |steps| ==> Takes(caps, run[i], steps[i], run[i + 1])
  }

  /** Behind the client it was neither given the position nor was it evicted. */
  predicate Missed(start: nat, h: History, p: nat) {
    start <= p < h.cursor && p !in h.got && p !in h.evicted
  }

  /** The client was given positions once each and in order, the evicted ones are no longer
      there, and it missed exactly those from lo to hi, which are gone as well. */
  ghost predicate Exact(start: nat, lo: nat, hi: nat, h: History) {
    && ViewOk(h.view) && start <= h.cursor <= |h.view.log|
    && (forall i, j :: 0 <= i < j < |h.got| ==> h.got[i] < h.got[j])
    && (forall i :: 0 <= i < |h.got| ==> start <= h.got[i] < h.cursor)
    && (forall p :: p in h.evicted ==> p < h.view.base)
    && (forall p: nat :: h.cursor <= p < h.view.base ==> p in h.evicted)
    && (forall p: nat :: Missed(start, h, p) <==> lo <= p < hi)
    && (lo < hi ==> start <= lo && hi <= h.cursor && hi <= h.view.base)
  }

  lemma AppendExact(caps: Caps, start: nat, lo: nat, hi: nat, h: History, s: Step, k: History)
    requires Exact(start, lo, hi, h) && s.Append? && Takes(caps, h, s, k)
    ensures Exact(start, lo, hi, k)
  {
    hide LeastDrop;
    forall p: nat ensures Missed(start, k, p) <==> lo <= p < hi {
      assert Missed(start, h, p) <==> lo <= p < hi;
    }
  }

  lemma PollExact(caps: Caps, start: nat, lo: nat, hi: nat, h: History, s: Step, k: History)
    requires Exact(start, lo, hi, h) && s.Poll? && Takes(caps, h, s, k)
    ensures Exact(start, lo, hi, k)
  {
    var c, n := Clamp(h.view, h.cursor), Next(h.view, h.cursor, s.limit);
    GivenIs(h.got, c, n);
    forall p: nat ensures Missed(start, k, p) <==> lo <= p < hi {
      assert Missed(start, h, p) <==> lo <= p < hi;
    }
  }

  lemma GivenIs(got: seq<nat>, c: nat, n: nat)
    requires c <= n
    ensures forall p: nat :: p in got + Range(c, n) <==> p in got || c <= p < n
  {
    forall p: nat ensures p in got + Range(c, n) <==> p in got || c <= p < n {
      if c <= p < n { assert Range(c, n)[p - c] == p; }
    }
  }

  lemma {:induction false} StaysExact(caps: Caps, start: nat, lo: nat, hi: nat, run: seq<History>, steps: seq<Step>,
                                      from: nat, until: nat)
    requires Follows(caps, run, steps) && from <= until < |run| && Exact(start, lo, hi, run[from])
    requires forall i :: from <= i < until ==> !steps[i].Reset?
    ensures Exact(start, lo, hi, run[until])
    decreases until
  {
    hide Exact, Takes;
    if from < until {
      StaysExact(caps, start, lo, hi, run, steps, from, until - 1);
      assert Takes(caps, run[until - 1], steps[until - 1], run[until]);
      if steps[until - 1].Append? {
        AppendExact(caps, start, lo, hi, run[until - 1], steps[until - 1], run[until]);
      } else {
        PollExact(caps, start, lo, hi, run[until - 1], steps[until - 1], run[until]);
      }
    }
  }

  /** A client in step with its inbox, at the start of its history with it. */
  predicate InStep(h: History) {
    h.got == [] && h.evicted == {} && h.view.base <= h.cursor <= |h.view.log|
  }

  /** Over any run of appends and polls, a client following its cursors is given the log in
      order, without repeats, and misses nothing but what the caps evicted before it asked. */
  lemma ClientSeesTheLog(caps: Caps, run: seq<History>, steps: seq<Step>)
    requires Follows(caps, run, steps) && InStep(run[0])
    requires forall i :: 0 <= i < |steps| ==> !steps[i].Reset?
    ensures Exact(run[0].cursor, 0, 0, run[|steps|])
    ensures !exists p: nat :: Missed(run[0].cursor, run[|steps|], p)
  {
    StaysExact(caps, run[0].cursor, 0, 0, run, steps, 0, |steps|);
  }

  // ---- after the inbox was removed ----

  /** Before its first poll of a new log a client was given nothing, and what was evicted lies
      below the base. */
  ghost predicate Unpolled(h: History) {
    ViewOk(h.view) && h.got == [] && forall p: nat :: p in h.evicted <==> p < h.view.base
  }

  lemma {:induction false} AppendsUnpolled(caps: Caps, run: seq<History>, steps: seq<Step>, j: nat, k: nat)
    requires Follows(caps, run, steps) && j < k <= |steps| && steps[j].Reset?
    requires forall i :: j < i < k ==> steps[i].Append?
    ensures Unpolled(run[k]) && run[k].cursor == run[j].cursor
    decreases k
  {
    hide LeastDrop;
    assert Takes(caps, run[k - 1], steps[k - 1], run[k]);
    if j < k - 1 { AppendsUnpolled(caps, run, steps, j, k - 1); }
  }

  lemma FirstPollMisses(caps: Caps, h: History, s: Step, k: History)
    requires Unpolled(h) && s.Poll? && Takes(caps, h, s, k)
    ensures Exact(0, h.view.base, Clamp(h.view, h.cursor), k)
  {
    var c, n := Clamp(h.view, h.cursor), Next(h.view, h.cursor, s.limit);
    GivenIs(h.got, c, n);
  }

  /** When the inbox was removed and made anew, the client misses, besides what is evicted,
      exactly the retained positions below its first clamped cursor, for ever. So it misses
      nothing if and only if that cursor was at most the base, or the inbox was empty. */
  lemma ResetMisses(caps: Caps, run: seq<History>, steps: seq<Step>, j: nat, k: nat, until: nat)
    requires Follows(caps, run, steps) && j < k < until <= |steps| && steps[j].Reset? && steps[k].Poll?
    requires (forall i :: j < i < k ==> steps[i].Append?) && (forall i :: k < i < until ==> !steps[i].Reset?)
    ensures Exact(0, run[k].view.base, Clamp(run[k].view, run[k].cursor), run[until])
    ensures (!exists p: nat :: Missed(0, run[until], p))
            <==> run[k].cursor <= run[k].view.base || |run[k].view.log| == run[k].view.base
    ensures run[k].cursor == run[j].cursor
  {
    AppendsUnpolled(caps, run, steps, j, k);
    assert Takes(caps, run[k], steps[k], run[k + 1]);
    FirstPollMisses(caps, run[k], steps[k], run[k + 1]);
    StaysExact(caps, 0, run[k].view.base, Clamp(run[k].view, run[k].cursor), run, steps, k + 1, until);
    if run[k].view.base < Clamp(run[k].view, run[k].cursor) { assert Missed(0, run[until], run[k].view.base); }
  }

  /** It happens: the first event of the new inbox is dropped by a client that returns with an
      older cursor, without being given to it or evicted. */
  lemma ReturningClientMisses(caps: Caps, h: History, e: Event)
    requires ViewOk(h.view) && h.cursor > 0
    ensures var anew := History(View([], 0), h.cursor, [], {});
            var filled := anew.(view := View([e], 0));
            var polled := filled.(view := View([e], 1), cursor := 1);
            && Follows(caps, [h, anew, filled, polled], [Reset, Append(e, View([e], 0)), Poll(0)])
            && Missed(0, polled, 0)
  {
    var anew := History(View([], 0), h.cursor, [], {});
    var filled := anew.(view := View([e], 0));
    var polled := filled.(view := View([e], 1), cursor := 1);
    assert Under(caps, Sizes([e][0..]), 0);
    assert Takes(caps, h, Reset, anew);
    assert Takes(caps, anew, Append(e, View([e], 0)), filled);
    assert Takes(caps, filled, Poll(0), polled);
  }

  // ---- when nothing at all is missed ----

  /** The unread events, the new one included, are within both caps. */
  ghost predicate UnreadFits(caps: Caps, h: History, s: Step)
    requires s.Append? && h.cursor <= |h.view.log|
  {
    Under(caps, Sizes((h.view.log + [s.e])[h.cursor..]), 0)
  }

  /** Everything behind the client was given to it, and nothing ahead of it was evicted. */
  predicate HasAll(start: nat, h: History) {
    start <= h.cursor && h.got == Range(start, h.cursor) && h.view.base <= h.cursor
  }

  lemma {:induction false} UnderGrows(caps: Caps, sizes: seq<nat>, d: nat, e: nat)
    requires d <= e <= |sizes| && Under(caps, sizes, d)
    ensures Under(caps, sizes, e)
  {
    SumShrinks(sizes, d, e);
  }

  /** An append evicts nothing unread exactly when the unread events fit. */
  lemma AppendSparesUnread(caps: Caps, h: History, s: Step, k: History)
    requires ViewOk(h.view) && h.view.base <= h.cursor <= |h.view.log| && s.Append? && Takes(caps, h, s, k)
    ensures k.view.base <= h.cursor <==> UnreadFits(caps, h, s)
  {
    var log, d, e := k.view.log, k.view.base - h.view.base, h.cursor - h.view.base;
    var sizes := Sizes(log[h.view.base..]);
    var unread := Sizes((h.view.log + [s.e])[h.cursor..]);
    assert log[h.view.base..][e..] == log[h.cursor..];
    assert unread == sizes[e..] && unread[0..] == unread;
    assert Under(caps, unread, 0) <==> Under(caps, sizes, e);
    if d <= e { UnderGrows(caps, sizes, d, e); }
  }

  /** Some unread position was evicted, and will never be given. */
  predicate LostAt(start: nat, h: History, p: nat) {
    start <= p < h.view.base && p !in h.got
  }

  ghost predicate AllFit(caps: Caps, run: seq<History>, steps: seq<Step>, n: nat)
    requires n <= |steps| < |run|
  {
    forall i :: 0 <= i < n && steps[i].Append? ==>
      run[i].cursor <= |run[i].view.log| && UnreadFits(caps, run[i], steps[i])
  }

  lemma StepHasAll(caps: Caps, start: nat, h: History, s: Step, k: History)
    requires ViewOk(h.view) && h.cursor <= |h.view.log| && HasAll(start, h) && !s.Reset? && Takes(caps, h, s, k)
    ensures (s.Append? ==> UnreadFits(caps, h, s)) ==> HasAll(start, k)
    ensures s.Append? && !UnreadFits(caps, h, s) ==> LostAt(start, k, h.cursor)
  {
    hide LeastDrop, Under;
    if s.Append? { AppendSparesUnread(caps, h, s, k); }
  }

  lemma StepKeepsLost(caps: Caps, start: nat, h: History, s: Step, k: History, p: nat)
    requires ViewOk(h.view) && LostAt(start, h, p) && !s.Reset? && Takes(caps, h, s, k)
    ensures LostAt(start, k, p)
  {
    hide LeastDrop;
    if s.Poll? { GivenIs(h.got, Clamp(h.view, h.cursor), Next(h.view, h.cursor, s.limit)); }
  }

  lemma {:induction false} LosesOrNot(caps: Caps, run: seq<History>, steps: seq<Step>, n: nat)
    requires Follows(caps, run, steps) && InStep(run[0]) && n <= |steps|
    requires forall i :: 0 <= i < |steps| ==> !steps[i].Reset?
    ensures run[n].cursor <= |run[n].view.log|
    ensures AllFit(caps, run, steps, n) ==> HasAll(run[0].cursor, run[n])
    ensures !AllFit(caps, run, steps, n) ==> exists p: nat :: LostAt(run[0].cursor, run[n], p)
  {
    hide LeastDrop, UnreadFits;
    var start := run[0].cursor;
    StaysExact(caps, start, 0, 0, run, steps, 0, n);
    if n > 0 {
      LosesOrNot(caps, run, steps, n - 1);
      assert Takes(caps, run[n - 1], steps[n - 1], run[n]);
      if AllFit(caps, run, steps, n - 1) {
        StepHasAll(caps, start, run[n - 1], steps[n - 1], run[n]);
      } else {
        var p: nat :| LostAt(start, run[n - 1], p);
        StepKeepsLost(caps, start, run[n - 1], steps[n - 1], run[n], p);
      }
    }
  }

  /** A client is given the whole log up to its cursor, with nothing evicted ahead of it, if and
      only if at every append the unread events were within both caps. */
  lemma SeesAllIff(caps: Caps, run: seq<History>, steps: seq<Step>)
    requires Follows(caps, run, steps) && InStep(run[0])
    requires forall i :: 0 <= i < |steps| ==> !steps[i].Reset?
    ensures HasAll(run[0].cursor, run[|steps|]) <==> AllFit(caps, run, steps, |steps|)
  {
    hide AllFit;
    LosesOrNot(caps, run, steps, |steps|);
    if !AllFit(caps, run, steps, |steps|) {
      var p: nat :| LostAt(run[0].cursor, run[|steps|], p);
      StaysExact(caps, run[0].cursor, 0, 0, run, steps, 0, |steps|);
      var all := Range(run[0].cursor, run[|steps|].cursor);
      GivenIs([], run[0].cursor, run[|steps|].cursor);
      assert [] + all == all;
    }
  }
}
