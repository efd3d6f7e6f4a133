/** The two caps of a bounded log, and the least prefix that brings it under both. */
module Eviction {

  /** A cap of zero or less is off. */
  datatype Caps = Caps(maxEvents: int, maxBytes: int)

  /** An entry of a bounded log, with the bytes it is charged for. */
  datatype Logged<T> = Logged(item: T, size: nat)

  function Sizes<T>(events: seq<Logged<T>>): (s: seq<nat>)
    ensures |s| == |events| && forall i :: 0 <= i < |s| ==> s[i] == events[i].size
  {
    seq(|events|, i requires 0 <= i < |events| => events[i].size)
  }

  function Sum(sizes: seq<nat>): nat {
    if sizes == [] then 0 else sizes[0] + Sum(sizes[1..])
  }

  /** Dropping d events brings the log under both caps; the newest event is exempt from the
      byte cap. */
  predicate Under(caps: Caps, sizes: seq<nat>, d: nat)
    requires d <= |sizes|
  {
    && (caps.maxEvents > 0 ==> |sizes| - d <= caps.maxEvents)
    && (caps.maxBytes > 0 ==> |sizes| - d <= 1 || Sum(sizes[d..]) <= caps.maxBytes)
  }

  /** The fewest oldest events to drop. */
  ghost predicate LeastDrop(caps: Caps, sizes: seq<nat>, d: nat) {
    && d <= |sizes| && Under(caps, sizes, d)
    && forall e :: 0 <= e < d ==> !Under(caps, sizes, e)
  }

  lemma SumStep(sizes: seq<nat>, d: nat)
    requires d < |sizes|
    ensures Sum(sizes[d..]) == sizes[d] + Sum(sizes[d + 1..])
  {
    assert sizes[d..][1..] == sizes[d + 1..];
  }

  lemma {:induction false} SumAppend(sizes: seq<nat>, x: nat)
    ensures Sum(sizes + [x]) == Sum(sizes) + x
  {
    if sizes != [] {
      assert (sizes + [x])[1..] == sizes[1..] + [x];
      SumAppend(sizes[1..], x);
    }
  }

  lemma {:induction false} SumShrinks(sizes: seq<nat>, d: nat, e: nat)
    requires d <= e <= |sizes|
    ensures Sum(sizes[e..]) <= Sum(sizes[d..])
    decreases e - d
  {
    if d < e {
      SumStep(sizes, d);
      SumShrinks(sizes, d + 1, e);
    }
  }

  /** A least drop is unique and never takes the newest event. */
  lemma LeastDropKeepsNewest(caps: Caps, sizes: seq<nat>, d: nat, e: nat)
    requires LeastDrop(caps, sizes, d) && LeastDrop(caps, sizes, e) && sizes != []
    ensures d == e && d < |sizes|
  {
    assert Under(caps, sizes, |sizes| - 1);
  }

  /** The scan that both logs use: first the count cap, then the oldest events until the bytes
      fit. The total of the sizes is kept alongside the log, so the scan starts from it. */
  method FindDrop(caps: Caps, sizes: seq<nat>, total: nat) returns (drop: nat)
    requires sizes != [] && total == Sum(sizes)
    ensures LeastDrop(caps, sizes, drop) && drop < |sizes|
  {
    drop := 0;
    if caps.maxEvents > 0 && |sizes| > caps.maxEvents {
      drop := |sizes| - caps.maxEvents;
    }
    ghost var first := drop;
    if caps.maxBytes > 0 {
      var remaining: int := total;
      var i := 0;
      assert sizes[0..] == sizes;
      while i < drop
        invariant 0 <= i <= drop && remaining == Sum(sizes[i..])
      {
        SumStep(sizes, i);
        remaining := remaining - sizes[i];
        i := i + 1;
      }
      while drop < |sizes| - 1 && remaining > caps.maxBytes
        invariant first <= drop <= |sizes| - 1 && remaining == Sum(sizes[drop..])
        invariant forall e :: first <= e < drop ==> !Under(caps, sizes, e)
      {
        SumStep(sizes, drop);
        remaining := remaining - sizes[drop];
        drop := drop + 1;
      }
    }
  }
}
