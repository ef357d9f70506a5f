/** The pace of fetches to one host (src/service.rs, `fetch`): the next free
    slot of every host, kept in a map that is pruned when it grows. */
module Pacing {
  import opened Common

  type Host = string
  type Slots = map<Host, int>

  const PRUNE_ABOVE := 10_000

  /** When a request to `host` arriving at `now` may start. */
  function StartAt(slots: Slots, host: Host, now: int): int {
    if host in slots && slots[host] > now then slots[host] else now
  }

  /** Hosts whose next slot has passed need no entry. */
  function Pruned(slots: Slots, now: int): Slots {
    if |slots| > PRUNE_ABOVE then map h | h in slots && slots[h] > now :: slots[h] else slots
  }

  class FetchService {
    const interval: nat
    var nextSlot: Slots

    constructor (interval: nat)
      ensures this.interval == interval && nextSlot == map[]
    {
      this.interval := interval;
      nextSlot := map[];
    }

    /** Takes the host's next slot; the caller then waits `wait`. */
    method TakeSlot(host: Host, now: int) returns (wait: nat)
      modifies this`nextSlot
      ensures now + wait == StartAt(old(nextSlot), host, now)
      ensures nextSlot == Pruned(old(nextSlot), now)[host := now + wait + interval]
    {
      if |nextSlot| > PRUNE_ABOVE {
        nextSlot := map h | h in nextSlot && nextSlot[h] > now :: nextSlot[h];
      }
      var at := now;
      if host in nextSlot && nextSlot[host] > now {
        at := nextSlot[host];
      }
      nextSlot := nextSlot[host := at + interval];
      wait := at - now;
    }
  }

  // ----- runs of requests ---------------------------------------------------------

  datatype Request = Request(host: Host, arrival: int)

  predicate InOrder(requests: seq<Request>) {
    forall i, j :: 0 <= i < j < |requests| ==> requests[i].arrival <= requests[j].arrival
  }

  /** The map after serving the requests one by one; never pruned, when
      `prune` is off. */
  function SlotsAfter(requests: seq<Request>, interval: nat, prune: bool): Slots {
    if |requests| == 0 then map[]
    else
      var before := SlotsAfter(requests[..|requests| - 1], interval, prune);
      var r := requests[|requests| - 1];
      (if prune then Pruned(before, r.arrival) else before)[r.host := StartAt(before, r.host, r.arrival) + interval]
  }

  /** The start time given to request `i`. */
  function Start(requests: seq<Request>, interval: nat, prune: bool, i: nat): int
    requires i < |requests|
  {
    StartAt(SlotsAfter(requests[..i], interval, prune), requests[i].host, requests[i].arrival)
  }

  /** The pruned map answers every request from `now` on as the full one. */
  ghost predicate SameFuture(pruned: Slots, full: Slots, now: int) {
    && (forall h :: h in pruned ==> h in full && pruned[h] == full[h])
    && (forall h :: h in full && h !in pruned ==> full[h] <= now)
  }

  lemma {:induction false} PruningKeepsFuture(requests: seq<Request>, interval: nat, now: int)
    requires InOrder(requests) && (|requests| > 0 ==> requests[|requests| - 1].arrival <= now)
    ensures SameFuture(SlotsAfter(requests, interval, true), SlotsAfter(requests, interval, false), now)
  {
    if |requests| > 0 {
      var last := |requests| - 1;
      PruningKeepsFuture(requests[..last], interval, requests[last].arrival);
    }
  }

  /** Pruning past 10,000 hosts never changes a start time. */
  lemma PruningIsInvisible(requests: seq<Request>, interval: nat, i: nat)
    requires InOrder(requests) && i < |requests|
    ensures Start(requests, interval, true, i) == Start(requests, interval, false, i)
  {
    PruningKeepsFuture(requests[..i], interval, requests[i].arrival);
  }

  /** Without pruning, a host's entry is the end of its latest slot. */
  lemma {:induction false} EntryIsLatest(requests: seq<Request>, interval: nat, i: nat, n: nat)
    requires i < n <= |requests|
    requires forall j :: i < j < n ==> requests[j].host != requests[i].host
    ensures var slots := SlotsAfter(requests[..n], interval, false);
            requests[i].host in slots && slots[requests[i].host] == Start(requests, interval, false, i) + interval
  {
    assert requests[..n][..n - 1] == requests[..n - 1];
    if i < n - 1 {
      EntryIsLatest(requests, interval, i, n - 1);
    }
  }

  lemma {:induction false} NoEntryBeforeFirst(requests: seq<Request>, interval: nat, host: Host)
    requires forall j :: 0 <= j < |requests| ==> requests[j].host != host
    ensures host !in SlotsAfter(requests, interval, false)
  {
    if |requests| > 0 {
      NoEntryBeforeFirst(requests[..|requests| - 1], interval, host);
    }
  }

  predicate NextTo(requests: seq<Request>, i: nat, k: nat) {
    i < k < |requests| && requests[i].host == requests[k].host
    && forall j :: i < j < k ==> requests[j].host != requests[k].host
  }

  /** A schedule of start times: never before arrival, and the requests to one
      host at least the interval apart, in arrival order. */
  ghost predicate Paced(requests: seq<Request>, interval: nat, start: seq<int>) {
    && |start| == |requests|
    && (forall i :: 0 <= i < |requests| ==> requests[i].arrival <= start[i])
    && (forall i, k :: 0 <= i < k < |requests| && requests[i].host == requests[k].host ==>
          start[i] + interval <= start[k])
  }

  ghost function Starts(requests: seq<Request>, interval: nat): seq<int> {
    seq(|requests|, i requires 0 <= i < |requests| => Start(requests, interval, true, i))
  }

  /** The previous request to the host of request `k`, if any. */
  lemma {:induction false} Previous(requests: seq<Request>, k: nat, n: nat) returns (p: Option<nat>)
    requires n <= k < |requests|
    requires forall j :: n <= j < k ==> requests[j].host != requests[k].host
    ensures p.Some? ==> NextTo(requests, p.value, k)
    ensures p == None ==> forall j :: 0 <= j < k ==> requests[j].host != requests[k].host
  {
    if n == 0 {
      p := None;
    } else if requests[n - 1].host == requests[k].host {
      p := Some(n - 1);
    } else {
      p := Previous(requests, k, n - 1);
    }
  }

  /** A request starts at its arrival or when the previous one to its host
      has had its interval, whichever is later. */
  lemma StartFollowsPrevious(requests: seq<Request>, interval: nat, k: nat, p: Option<nat>)
    requires InOrder(requests) && k < |requests|
    requires p.Some? ==> NextTo(requests, p.value, k)
    requires p == None ==> forall j :: 0 <= j < k ==> requests[j].host != requests[k].host
    ensures Start(requests, interval, true, k) ==
      if p == None then requests[k].arrival
      else Max(requests[k].arrival, Start(requests, interval, true, p.value) + interval)
  {
    PruningIsInvisible(requests, interval, k);
    if p.Some? {
      PruningIsInvisible(requests, interval, p.value);
      EntryIsLatest(requests, interval, p.value, k);
    } else {
      NoEntryBeforeFirst(requests[..k], interval, requests[k].host);
    }
  }

  lemma {:induction false} SameHostApart(requests: seq<Request>, interval: nat, i: nat, k: nat)
    requires InOrder(requests) && i < k < |requests| && requests[i].host == requests[k].host
    ensures Start(requests, interval, true, i) + interval <= Start(requests, interval, true, k)
    decreases k
  {
    var p := Previous(requests, k, k);
    StartFollowsPrevious(requests, interval, k, p);
    if p.value != i {
      assert i < p.value;
      SameHostApart(requests, interval, i, p.value);
    }
  }

  /** For any arrivals on a clock that does not go back, start times to one
      host are at least the interval apart and never before arrival. */
  lemma StartsArePaced(requests: seq<Request>, interval: nat)
    requires InOrder(requests)
    ensures Paced(requests, interval, Starts(requests, interval))
  {
    forall i, k | 0 <= i < k < |requests| && requests[i].host == requests[k].host
      ensures Starts(requests, interval)[i] + interval <= Starts(requests, interval)[k]
    {
      SameHostApart(requests, interval, i, k);
    }
  }

  /** No schedule in arrival order starts any request earlier. */
  lemma {:induction false} StartsAreEarliest(requests: seq<Request>, interval: nat, other: seq<int>, k: nat)
    requires InOrder(requests) && Paced(requests, interval, other) && k < |requests|
    ensures Starts(requests, interval)[k] <= other[k]
  {
    var p := Previous(requests, k, k);
    StartFollowsPrevious(requests, interval, k, p);
    if p.Some? {
      StartsAreEarliest(requests, interval, other, p.value);
    }
  }
}
