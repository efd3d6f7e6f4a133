/** The observe ring: the retained end of the log of all published events. */
module Observe {
  import opened Eviction

  datatype Published = Published(id: nat, conversation: string, agents: seq<string>)
  type Event = Logged<Published>
  datatype Filter = Filter(conversation: string, agent: string, visible: set<string>)
  datatype Seen = Seen(events: seq<Event>, last: int)

  /** The caller may see an event when every agent on it is visible to it. */
  predicate Matches(f: Filter, e: Event) {
    && (f.conversation != "" ==> e.item.conversation == f.conversation)
    && (f.agent != "" ==> f.agent in e.item.agents)
    && (forall i :: 0 <= i < |e.item.agents| ==> e.item.agents[i] in f.visible)
  }

  lemma SizesAppend(events: seq<Event>, e: Event)
    ensures Sizes(events + [e]) == Sizes(events) + [e.size]
  {
  }

  /** The linear reference: the matching events with a larger id, in order. */
  function Filtered(events: seq<Event>, f: Filter, after: int): seq<Event> {
    if events == [] then []
    else
      var last := events[|events| - 1];
      Filtered(events[..|events| - 1], f, after) + if last.item.id > after && Matches(f, last) then [last] else []
  }

  function LastId(events: seq<Event>, after: int): int {
    if events == [] then after else events[|events| - 1].item.id
  }

  /** Ids are the positions in the log, counted from one. */
  ghost predicate Numbered(log: seq<Event>) {
    forall i :: 0 <= i < |log| ==> log[i].item.id == i + 1
  }

  lemma {:induction false} FilteredSplits(a: seq<Event>, b: seq<Event>, f: Filter, after: int)
    ensures Filtered(a + b, f, after) == Filtered(a, f, after) + Filtered(b, f, after)
  {
    if b == [] {
      assert a + b == a;
    } else {
      var k := |b| - 1;
      FilteredSplits(a, b[..k], f, after);
      assert (a + b)[..|a| + k] == a + b[..k];
    }
  }

  lemma {:induction false} NothingBelow(events: seq<Event>, f: Filter, after: int)
    requires forall i :: 0 <= i < |events| ==> events[i].item.id <= after
    ensures Filtered(events, f, after) == []
  {
    if events != [] { NothingBelow(events[..|events| - 1], f, after); }
  }

  lemma FilterNext(events: seq<Event>, first: nat, i: nat, f: Filter, after: int)
    requires first <= i < |events|
    ensures Filtered(events[first..i + 1], f, after)
         == Filtered(events[first..i], f, after)
            + if events[i].item.id > after && Matches(f, events[i]) then [events[i]] else []
  {
    assert events[first..i + 1][..i - first] == events[first..i];
  }

  /** The search skips nothing that the filter would pick. */
  lemma FilterStarts(events: seq<Event>, first: nat, f: Filter, after: int)
    requires first <= |events| && forall i :: 0 <= i < first ==> events[i].item.id <= after
    ensures Filtered(events[first..first], f, after) == []
    ensures Filtered(events[first..|events|], f, after) == Filtered(events, f, after)
  {
    hide Matches;
    NothingBelow(events[..first], f, after);
    FilteredSplits(events[..first], events[first..], f, after);
    assert events == events[..first] + events[first..] && events[first..|events|] == events[first..];
  }

  lemma TailIncreases(log: seq<Event>, first: int)
    requires Numbered(log) && 0 <= first <= |log|
    ensures Increasing(log[first..])
  {
  }

  /** The fewest oldest events are gone. */
  ghost predicate Evicts(caps: Caps, before: seq<Event>, after: seq<Event>) {
    && |after| <= |before| && after == before[|before| - |after|..]
    && LeastDrop(caps, Sizes(before), |before| - |after|)
  }

  class Ring {
    const caps: Caps
    var events: seq<Event>
    var nextId: nat
    var bytes: int
    ghost var log: seq<Event>

    /** The retained events are the end of the log, so their ids are contiguous and end at the
        last id given out; the byte count is exact. */
    ghost predicate Valid()
      reads this
    {
      && Numbered(log) && nextId == |log| && |events| <= |log|
      && events == log[|log| - |events|..] && bytes == Sum(Sizes(events))
    }

    /** Both caps hold, except that a lone newest event may exceed the byte cap. */
    ghost predicate Bounded()
      reads this
    {
      && (caps.maxEvents > 0 ==> |events| <= caps.maxEvents)
      && (caps.maxBytes > 0 ==> |events| <= 1 || bytes <= caps.maxBytes)
    }

    constructor (limits: Caps)
      ensures Valid() && Bounded() && caps == limits && log == []
    {
      caps, events, nextId, bytes, log := limits, [], 0, 0, [];
    }

    /** Publish an event under the next id and trim the fewest oldest events. */
    method Publish(conversation: string, agents: seq<string>, size: nat)
      requires Valid()
      modifies this
      ensures Valid() && Bounded()
      ensures log == old(log) + [Logged(Published(|old(log)| + 1, conversation, agents), size)]
      ensures Evicts(caps, old(events) + [log[|log| - 1]], events)
    {
      hide Evicts, Sum, Sizes, LeastDrop, Under;
      nextId := nextId + 1;
      var e := Logged(Published(nextId, conversation, agents), size);
      log := log + [e];
      SumAppend(Sizes(events), size);
      assert Sizes(events + [e]) == Sizes(events) + [size] by { SizesAppend(events, e); }
      events := events + [e];
      bytes := bytes + size;
      Trim();
    }

    method Trim()
      requires Valid() && events != []
      modifies this`events, this`bytes
      ensures Valid() && Bounded()
      ensures Evicts(caps, old(events), events)
    {
      var drop := FindDrop(caps, Sizes(events), bytes);
      assert Sizes(events)[0..] == Sizes(events);
      assert events[0..] == events;
      if drop == 0 { return; }
      var i := 0;
      while i < drop
        invariant events == old(events)
        invariant 0 <= i <= drop && bytes == Sum(Sizes(events)[i..])
      {
        SumStep(Sizes(events), i);
        bytes := bytes - events[i].size;
        i := i + 1;
      }
      assert Sizes(events[drop..]) == Sizes(events)[drop..];
      events := events[drop..];
    }

    /** The first retained event past an id, by halving. */
    method Search(after: int) returns (i: nat)
      requires Valid()
      ensures i <= |events|
      ensures forall j :: 0 <= j < i ==> events[j].item.id <= after
      ensures forall j :: i <= j < |events| ==> events[j].item.id > after
    {
      hide Numbered, Sum, Sizes;
      TailIncreases(log, |log| - |events|);
      var j;
      i, j := 0, |events|;
      while i < j
        invariant 0 <= i <= j <= |events|
        invariant forall k :: 0 <= k < i ==> events[k].item.id <= after
        invariant forall k :: j <= k < |events| ==> events[k].item.id > after
      {
        var h := (i + j) / 2;
        if events[h].item.id > after { j := h; } else { i := h + 1; }
      }
    }

    /** Exactly the linear filter of the retained events, and the cursor to resume at. */
    method ObserveSince(after: int, f: Filter) returns (r: Seen)
      requires Valid()
      ensures r == Seen(Filtered(events, f, after), LastId(Filtered(events, f, after), after))
    {
      hide Matches, Numbered, Sum, Sizes, Filtered;
      var first := Search(after);
      var out: seq<Event>, last := [], after;
      var i := first;
      FilterStarts(events, first, f, after);
      while i < |events|
        invariant first <= i <= |events|
        invariant out == Filtered(events[first..i], f, after) && last == LastId(out, after)
      {
        FilterNext(events, first, i, f, after);
        if Matches(f, events[i]) {
          out := out + [events[i]];
          last := events[i].item.id;
        }
        i := i + 1;
      }
      r := Seen(out, last);
    }
  }

  // ---- a client that resumes at the cursor it is given ----

  datatype View = View(log: seq<Event>, base: nat)
  datatype Step = Publish(e: Event, base: nat) | Resume
  datatype History = History(view: View, cursor: int, got: seq<Event>)

  ghost predicate ViewOk(v: View) {
    Numbered(v.log) && v.base <= |v.log|
  }

  ghost predicate Takes(caps: Caps, f: Filter, h: History, s: Step, k: History)
    requires ViewOk(h.view)
  {
    match s
    case Publish(e, base) =>
      && k == h.(view := View(h.view.log + [e], base)) && ViewOk(k.view)
      && h.view.base <= base && Evicts(caps, k.view.log[h.view.base..], k.view.log[base..])
    case Resume =>
      var out := Filtered(h.view.log[h.view.base..], f, h.cursor);
      k == h.(cursor := LastId(out, h.cursor), got := h.got + out)
  }

  lemma {:induction false} FilteredHas(events: seq<Event>, f: Filter, after: int, e: Event)
    ensures e in Filtered(events, f, after) <==> e in events && e.item.id > after && Matches(f, e)
  {
    hide Matches;
    if events != [] {
      var k := |events| - 1;
      FilteredHas(events[..k], f, after, e);
      assert events == events[..k] + [events[k]];
    }
  }

  predicate Increasing(events: seq<Event>) {
    forall i, j :: 0 <= i < j < |events| ==> events[i].item.id < events[j].item.id
  }

  lemma {:induction false} FilteredIncreasing(events: seq<Event>, f: Filter, after: int)
    requires Increasing(events)
    ensures Increasing(Filtered(events, f, after))
  {
    hide Matches;
    if events != [] {
      var k := |events| - 1;
      FilteredIncreasing(events[..k], f, after);
      var out := Filtered(events[..k], f, after);
      forall i | 0 <= i < |out| ensures out[i].item.id < events[k].item.id {
        FilteredHas(events[..k], f, after, out[i]);
        var p :| 0 <= p < k && events[..k][p] == out[i];
        assert events[p].item.id < events[k].item.id;
      }
    }
  }

  /** The filter picks exactly the matching events past the cursor, in increasing order. */
  lemma FilteredIs(events: seq<Event>, f: Filter, after: int)
    requires Increasing(events)
    ensures forall e :: e in Filtered(events, f, after) <==> e in events && e.item.id > after && Matches(f, e)
    ensures Increasing(Filtered(events, f, after))
  {
    hide Matches, Increasing, Filtered;
    forall e ensures e in Filtered(events, f, after) <==> e in events && e.item.id > after && Matches(f, e) {
      FilteredHas(events, f, after, e);
    }
    FilteredIncreasing(events, f, after);
  }

  /** What the client has is increasing, matching and behind its cursor, and it lacks no
      matching event behind its cursor that is still retained. */
  ghost predicate Exact(f: Filter, start: int, h: History) {
    && ViewOk(h.view) && start <= h.cursor
    && Increasing(h.got)
    && (forall e :: e in h.got ==> e in h.view.log && start < e.item.id <= h.cursor && Matches(f, e))
    && (forall e :: e in h.view.log && start < e.item.id <= h.cursor && Matches(f, e) && h.view.base < e.item.id ==>
          e in h.got)
  }

  lemma RetainedTail(v: View)
    requires ViewOk(v)
    ensures forall e :: e in v.log[v.base..] <==> e in v.log && v.base < e.item.id
    ensures Increasing(v.log[v.base..])
  {
    forall e ensures e in v.log[v.base..] <==> e in v.log && v.base < e.item.id {
      if e in v.log && v.base < e.item.id {
        var i :| 0 <= i < |v.log| && v.log[i] == e;
        assert v.log[v.base..][i - v.base] == e;
      }
      if e in v.log[v.base..] {
        var i :| 0 <= i < |v.log| - v.base && v.log[v.base..][i] == e;
        assert v.log[v.base + i] == e;
      }
    }
  }

  lemma ResumeExact(caps: Caps, f: Filter, start: int, h: History, k: History)
    requires Exact(f, start, h) && Takes(caps, f, h, Resume, k)
    ensures Exact(f, start, k)
    ensures forall e :: e in h.view.log && h.view.base < e.item.id && start < e.item.id && Matches(f, e) ==> e in k.got
  {
    hide Matches, Numbered, Filtered, Increasing;
    RetainedTail(h.view);
    var tail := h.view.log[h.view.base..];
    FilteredIs(tail, f, h.cursor);
    var out := Filtered(tail, f, h.cursor);
    GrowsInOrder(h.got, out, h.cursor);
    forall e ensures e in k.got <==> e in h.got || e in out {}
  }

  /** Appending larger ids keeps a list increasing, and its last id is the largest. */
  lemma GrowsInOrder(got: seq<Event>, out: seq<Event>, cursor: int)
    requires Increasing(got) && Increasing(out)
    requires (forall e :: e in got ==> e.item.id <= cursor) && forall e :: e in out ==> e.item.id > cursor
    ensures Increasing(got + out) && LastId(out, cursor) >= cursor
    ensures forall e :: e in out ==> e.item.id <= LastId(out, cursor)
  {
    forall i, j | 0 <= i < j < |got + out| ensures (got + out)[i].item.id < (got + out)[j].item.id {
      if i < |got| <= j { assert got[i] in got && out[j - |got|] in out; }
    }
    forall i | 0 <= i < |out| ensures cursor < out[i].item.id <= LastId(out, cursor) { assert out[i] in out; }
  }

  lemma PublishExact(caps: Caps, f: Filter, start: int, h: History, e: Event, base: nat, k: History)
    requires Exact(f, start, h) && Takes(caps, f, h, Publish(e, base), k) && h.cursor <= |h.view.log|
    ensures Exact(f, start, k)
  {
    hide Matches, Evicts;
    assert e.item.id == |h.view.log| + 1 by { assert k.view.log[|h.view.log|] == e; }
  }

  ghost predicate Follows(caps: Caps, f: Filter, run: seq<History>, steps: seq<Step>) {
    && |run| == |steps| + 1 && (forall i :: 0 <= i < |run| ==> ViewOk(run[i].view))
    && forall i :: 0 <= i < |steps| ==> Takes(caps, f, run[i], steps[i], run[i + 1])
  }

  /** Resuming at the returned cursor over any run gives each matching event at most once, in
      order, and right after each resume every matching event still retained has been given. */
  lemma {:induction false} ResumeSeesEachOnce(caps: Caps, f: Filter, run: seq<History>, steps: seq<Step>)
    requires Follows(caps, f, run, steps) && run[0].got == [] && run[0].cursor <= |run[0].view.log|
    ensures Exact(f, run[0].cursor, run[|steps|]) && run[|steps|].cursor <= |run[|steps|].view.log|
    ensures steps != [] && steps[|steps| - 1].Resume? ==>
              var v := run[|steps|].view;
              forall e :: e in v.log && v.base < e.item.id && run[0].cursor < e.item.id && Matches(f, e) ==>
                e in run[|steps|].got
  {
    hide Matches, Numbered, Evicts;
    if steps != [] {
      var k := |steps| - 1;
      assert Takes(caps, f, run[k], steps[k], run[k + 1]);
      ResumeSeesEachOnce(caps, f, run[..k + 1], steps[..k]);
      if steps[k].Resume? {
        ResumeExact(caps, f, run[0].cursor, run[k], run[k + 1]);
        CursorInLog(f, run[0].cursor, run[k + 1]);
      } else {
        PublishExact(caps, f, run[0].cursor, run[k], steps[k].e, steps[k].base, run[k + 1]);
      }
    }
  }

  lemma CursorInLog(f: Filter, start: int, h: History)
    requires Exact(f, start, h)
    ensures forall e :: e in h.got ==> e.item.id <= |h.view.log|
  {
  }

  /** What an observer is shown: exactly the retained events past its cursor in the conversation and
      with the agent that it asked for, if it did; and never one that names an agent it may not see. */
  lemma ShownIs(events: seq<Event>, f: Filter, after: int, e: Event)
    ensures e in Filtered(events, f, after) <==>
              && e in events && e.item.id > after
              && (f.conversation == "" || e.item.conversation == f.conversation)
              && (f.agent == "" || f.agent in e.item.agents)
              && forall agent :: agent in e.item.agents ==> agent in f.visible
  {
    FilteredHas(events, f, after, e);
  }
}
