/** Chunked calls whose service may leave any part of a request unprocessed. */
module Retry {
  import opened Text

  const MAX_RETRIES := 5

  /** batchBackoff, in milliseconds. */
  function Backoff(attempt: nat): nat {
    (attempt + 1) * 10
  }

  /** What the service does with one request: the entries it processes, in its own order,
      and those it hands back. A failed call may have processed entries all the same. */
  datatype BatchReply<X> = BatchReply(processed: seq<X>, unprocessed: seq<X>, ok: bool)

  /** The environment's one promise: every entry is either processed or handed back. */
  predicate LegalReply<X(==)>(r: BatchReply<X>, request: seq<X>) {
    multiset(r.processed) + multiset(r.unprocessed) == multiset(request)
  }

  datatype Outcome<X> = Complete | CallFailed | StillUnprocessed(left: seq<X>)

  /** One call: what it processed, and what it left; None is an error. A script that is
      used up or not legal fails the call, and so does a processed entry that is not good. */
  datatype Called<X> = Called(processed: seq<X>, left: Option<seq<X>>, script: seq<BatchReply<X>>)

  function Call<X(==)>(script: seq<BatchReply<X>>, request: seq<X>, good: X -> bool): Called<X> {
    if script == [] then Called([], None, [])
    else
      var r := script[0];
      if !LegalReply(r, request) then Called([], None, script[1..])
      else if r.ok && AllOf(r.processed, good) then Called(r.processed, Some(r.unprocessed), script[1..])
      else Called(r.processed, None, script[1..])
  }

  predicate AllOf<X(==)>(xs: seq<X>, good: X -> bool) {
    forall x <- xs :: good(x)
  }

  lemma CallKeeps<X>(script: seq<BatchReply<X>>, request: seq<X>, good: X -> bool)
    ensures var c := Call(script, request, good);
            && (c.left.Some? ==>
                  && multiset(c.processed) + multiset(c.left.value) == multiset(request)
                  && |c.left.value| <= |request| && AllOf(c.processed, good))
            && (c.left.None? ==> multiset(c.processed) <= multiset(request))
  {
    if script != [] && LegalReply(script[0], request) {
      assert |multiset(script[0].processed) + multiset(script[0].unprocessed)| == |multiset(request)|;
    }
  }

  /** A run of calls: all that was processed in order, how it ended, the requests that were sent
      and the time slept. */
  datatype Drained<X> =
    Drained(processed: seq<X>, outcome: Outcome<X>, script: seq<BatchReply<X>>, calls: seq<seq<X>>, slept: nat)

  function Then<X>(processed: seq<X>, calls: seq<seq<X>>, slept: nat, d: Drained<X>): Drained<X> {
    Drained(processed + d.processed, d.outcome, d.script, calls + d.calls, slept + d.slept)
  }

  /** One chunk from a given attempt on. */
  function Drain<X(==)>(script: seq<BatchReply<X>>, request: seq<X>, attempt: nat, good: X -> bool): Drained<X>
    requires attempt <= MAX_RETRIES
    decreases MAX_RETRIES - attempt
  {
    var c := Call(script, request, good);
    var n := [request];
    if c.left.None? then Drained(c.processed, CallFailed, c.script, n, 0)
    else if c.left.value == [] then Drained(c.processed, Complete, c.script, n, 0)
    else if attempt >= MAX_RETRIES then Drained(c.processed, StillUnprocessed(c.left.value), c.script, n, 0)
    else Then(c.processed, n, Backoff(attempt), Drain(c.script, c.left.value, attempt + 1, good))
  }

  /** Consecutive chunks up to the first that does not complete; start is where that one
      begins, or the length of the queue. */
  datatype Ran<X> = Ran(all: Drained<X>, start: nat)

  function First(n: nat, size: nat): nat {
    if n < size then n else size
  }

  function DrainAll<X(==)>(script: seq<BatchReply<X>>, queue: seq<X>, size: nat, good: X -> bool): Ran<X>
    requires size > 0
    decreases |queue|
  {
    if queue == [] then Ran(Drained([], Complete, script, [], 0), 0)
    else
      var n := First(|queue|, size);
      var d := Drain(script, queue[..n], 0, good);
      if !d.outcome.Complete? then Ran(d, 0)
      else
        var r := DrainAll(d.script, queue[n..], size, good);
        Ran(Then(d.processed, d.calls, d.slept, r.all), n + r.start)
  }

  // ----- What a chunk does -----

  /** Every entry of the request is accounted for. */
  predicate Accounts<X(==)>(d: Drained<X>, request: seq<X>, good: X -> bool) {
    match d.outcome
    case Complete => multiset(d.processed) == multiset(request) && AllOf(d.processed, good)
    case CallFailed => multiset(d.processed) <= multiset(request)
    case StillUnprocessed(left) => left != [] && multiset(d.processed) + multiset(left) == multiset(request)
  }

  lemma ThenAccounts<X>(processed: seq<X>, left: seq<X>, calls: seq<seq<X>>, slept: nat, d: Drained<X>,
                        request: seq<X>, good: X -> bool)
    requires multiset(processed) + multiset(left) == multiset(request) && Accounts(d, left, good)
    requires AllOf(processed, good)
    ensures Accounts(Then(processed, calls, slept, d), request, good)
  {
    assert multiset(processed + d.processed) == multiset(processed) + multiset(d.processed);
  }

  lemma {:induction false} DrainKeeps<X>(script: seq<BatchReply<X>>, request: seq<X>, attempt: nat, good: X -> bool)
    requires attempt <= MAX_RETRIES
    ensures Accounts(Drain(script, request, attempt, good), request, good)
    decreases MAX_RETRIES - attempt
  {
    var c := Call(script, request, good);
    CallKeeps(script, request, good);
    if c.left.Some? {
      if c.left.value == [] {
        assert multiset(c.left.value) == multiset{};
      } else if attempt < MAX_RETRIES {
        DrainKeeps(c.script, c.left.value, attempt + 1, good);
        ThenAccounts(c.processed, c.left.value, [request], Backoff(attempt),
                     Drain(c.script, c.left.value, attempt + 1, good), request, good);
      }
    }
  }

  /** The time a chunk sleeps from a given attempt on, if it uses all of them. */
  function Waits(attempt: nat): nat
    decreases MAX_RETRIES - attempt
  {
    if attempt >= MAX_RETRIES then 0 else Backoff(attempt) + Waits(attempt + 1)
  }

  /** At most so many calls of at most so many entries, and so much sleep; exactly that
      many calls and that much sleep when entries stay unprocessed. */
  predicate Within<X(==)>(d: Drained<X>, tries: nat, size: nat, wait: nat) {
    && 1 <= |d.calls| <= tries && (forall c <- d.calls :: 1 <= |c| <= size) && d.slept <= wait
    && (d.outcome.StillUnprocessed? ==> |d.calls| == tries && d.slept == wait)
  }

  lemma ThenWithin<X>(processed: seq<X>, request: seq<X>, pause: nat, d: Drained<X>, tries: nat, left: nat, wait: nat)
    requires 1 <= left <= |request| && Within(d, tries, left, wait)
    ensures Within(Then(processed, [request], pause, d), tries + 1, |request|, pause + wait)
  {}

  lemma LeftShorter<X>(script: seq<BatchReply<X>>, request: seq<X>, good: X -> bool)
    ensures var c := Call(script, request, good); c.left.Some? ==> |c.left.value| <= |request|
  {
    CallKeeps(script, request, good);
  }

  lemma {:induction false} DrainCost<X>(script: seq<BatchReply<X>>, request: seq<X>, attempt: nat, good: X -> bool)
    requires attempt <= MAX_RETRIES && request != []
    ensures Within(Drain(script, request, attempt, good), MAX_RETRIES + 1 - attempt, |request|, Waits(attempt))
    decreases MAX_RETRIES - attempt
  {
    var c := Call(script, request, good);
    if c.left.Some? && c.left.value != [] && attempt < MAX_RETRIES {
      LeftShorter(script, request, good);
      DrainCost(c.script, c.left.value, attempt + 1, good);
      ThenWithin(c.processed, request, Backoff(attempt), Drain(c.script, c.left.value, attempt + 1, good),
                 MAX_RETRIES - attempt, |c.left.value|, Waits(attempt + 1));
    }
  }

  /** Only entries of the chunk were sent. */
  predicate OnlyFrom<X(==)>(calls: seq<seq<X>>, chunk: seq<X>) {
    forall c <- calls, x <- c :: x in chunk
  }

  lemma ThenOnly<X>(request: seq<X>, calls: seq<seq<X>>, left: seq<X>)
    requires OnlyFrom(calls, left) && forall x <- left :: x in request
    ensures OnlyFrom([request] + calls, request)
  {}

  lemma LeftIn<X>(processed: seq<X>, left: seq<X>, request: seq<X>)
    requires multiset(processed) + multiset(left) == multiset(request)
    ensures forall x <- left :: x in request
  {
    forall x <- left ensures x in request {
      assert x in multiset(left) && x in multiset(request);
    }
  }

  lemma {:induction false} DrainSends<X>(script: seq<BatchReply<X>>, request: seq<X>, attempt: nat, good: X -> bool)
    requires attempt <= MAX_RETRIES
    ensures OnlyFrom(Drain(script, request, attempt, good).calls, request)
    decreases MAX_RETRIES - attempt
  {
    var c := Call(script, request, good);
    CallKeeps(script, request, good);
    if c.left.Some? && c.left.value != [] && attempt < MAX_RETRIES {
      DrainSends(c.script, c.left.value, attempt + 1, good);
      LeftIn(c.processed, c.left.value, request);
      ThenOnly(request, Drain(c.script, c.left.value, attempt + 1, good).calls, c.left.value);
    }
  }

  // ----- What a run does -----

  lemma Halves<X>(s: seq<X>, n: nat)
    requires n <= |s|
    ensures s == s[..n] + s[n..]
    ensures multiset(s) == multiset(s[..n]) + multiset(s[n..])
  {
    assert s == s[..n] + s[n..];
  }

  /** A run that completes has processed every entry exactly as often as it was queued. */
  lemma {:induction false} RunComplete<X>(script: seq<BatchReply<X>>, queue: seq<X>, size: nat, good: X -> bool)
    requires size > 0 && DrainAll(script, queue, size, good).all.outcome.Complete?
    ensures var r := DrainAll(script, queue, size, good);
            && multiset(r.all.processed) == multiset(queue) && r.start == |queue|
            && AllOf(r.all.processed, good)
    decreases |queue|
  {
    if queue == [] {
    } else {
      var n := First(|queue|, size);
      var d := Drain(script, queue[..n], 0, good);
      DrainKeeps(script, queue[..n], 0, good);
      RunComplete(d.script, queue[n..], size, good);
      Halves(queue, n);
    }
  }

  /** Where a chunk can begin. */
  predicate ChunkStart(n: nat, size: nat)
    requires size > 0
  {
    n == 0 || (n >= size && ChunkStart(n - size, size))
  }

  function ChunkAt<X>(queue: seq<X>, start: nat, size: nat): seq<X>
    requires start <= |queue|
  {
    queue[start..start + First(|queue| - start, size)]
  }

  /** The chunks before the failing one are complete. Of its own entries exactly the
      complement of the last unprocessed ones was processed, or some of them if a call failed.
      Since those chunks only entries of this one were sent, so no later entry was. */
  predicate Stopped<X(==)>(r: Ran<X>, before: Drained<X>, chunk: seq<X>) {
    && before.outcome.Complete? && before.processed <= r.all.processed && before.calls <= r.all.calls
    && OnlyFrom(r.all.calls[|before.calls|..], chunk)
    && var part := r.all.processed[|before.processed|..];
       match r.all.outcome
       case Complete => false
       case CallFailed => multiset(part) <= multiset(chunk)
       case StillUnprocessed(left) => left != [] && multiset(part) + multiset(left) == multiset(chunk)
  }

  lemma StoppedAfter<X>(d: Drained<X>, r: Ran<X>, before: Drained<X>, chunk: seq<X>, n: nat)
    requires Stopped(r, before, chunk)
    ensures Stopped(Ran(Then(d.processed, d.calls, d.slept, r.all), n + r.start),
                    Then(d.processed, d.calls, d.slept, before), chunk)
  {
    DropBoth(d.processed, r.all.processed, before.processed);
    DropBoth(d.calls, r.all.calls, before.calls);
  }

  lemma DropBoth<T>(s: seq<T>, all: seq<T>, front: seq<T>)
    requires front <= all
    ensures s + front <= s + all && (s + all)[|s + front|..] == all[|front|..]
  {}

  lemma RunStep<X>(script: seq<BatchReply<X>>, head: seq<X>, tail: seq<X>, size: nat, good: X -> bool)
    requires 0 < |head| == size && Drain(script, head, 0, good).outcome.Complete?
    ensures var d := Drain(script, head, 0, good);
            var r := DrainAll(d.script, tail, size, good);
            DrainAll(script, head + tail, size, good) == Ran(Then(d.processed, d.calls, d.slept, r.all), size + r.start)
  {
    assert (head + tail)[..size] == head && (head + tail)[size..] == tail;
  }

  lemma ChunkAfter<X>(head: seq<X>, tail: seq<X>, start: nat, size: nat)
    requires |head| == size && start <= |tail|
    ensures (head + tail)[..size + start] == head + tail[..start]
    ensures ChunkAt(head + tail, size + start, size) == ChunkAt(tail, start, size)
  {}

  /** The run of the queue stops at a chunk as described. */
  predicate StopsAt<X(==)>(queue: seq<X>, size: nat, r: Ran<X>, before: Drained<X>)
    requires size > 0
  {
    && r.start < |queue| && ChunkStart(r.start, size)
    && Stopped(r, before, ChunkAt(queue, r.start, size))
  }

  function Extend<X>(d: Drained<X>, r: Ran<X>, n: nat): Ran<X> {
    Ran(Then(d.processed, d.calls, d.slept, r.all), n + r.start)
  }

  lemma StopsLater<X>(head: seq<X>, tail: seq<X>, size: nat, d: Drained<X>, r: Ran<X>, before: Ran<X>)
    requires 0 < |head| == size && d.outcome.Complete? && StopsAt(tail, size, r, before.all)
    ensures StopsAt(head + tail, size, Extend(d, r, size), Extend(d, before, size).all)
    ensures (head + tail)[..Extend(d, r, size).start] == head + tail[..r.start]
  {
    ChunkAfter(head, tail, r.start, size);
    StoppedAfter(d, r, before.all, ChunkAt(tail, r.start, size), size);
  }

  lemma StopsFirst<X>(queue: seq<X>, head: seq<X>, size: nat, d: Drained<X>, before: Drained<X>, good: X -> bool)
    requires size > 0 && queue != [] && head == queue[..First(|queue|, size)]
    requires Accounts(d, head, good) && OnlyFrom(d.calls, head) && !d.outcome.Complete?
    requires before.processed == [] && before.calls == [] && before.outcome.Complete?
    ensures StopsAt(queue, size, Ran(d, 0), before)
  {
    assert ChunkAt(queue, 0, size) == head && d.processed[0..] == d.processed && d.calls[0..] == d.calls;
  }

  ghost predicate FailsInShape<X>(script: seq<BatchReply<X>>, queue: seq<X>, size: nat, good: X -> bool)
    requires size > 0
  {
    var r := DrainAll(script, queue, size, good);
    r.start < |queue| && StopsAt(queue, size, r, DrainAll(script, queue[..r.start], size, good).all)
  }

  lemma ShapeOf<X>(script: seq<BatchReply<X>>, queue: seq<X>, size: nat,
                   good: X -> bool, r: Ran<X>, front: seq<X>, before: Ran<X>)
    requires size > 0 && r == DrainAll(script, queue, size, good) && before == DrainAll(script, front, size, good)
    requires r.start < |queue| && front == queue[..r.start] && StopsAt(queue, size, r, before.all)
    ensures FailsInShape(script, queue, size, good)
  {}

  lemma FailsFirst<X>(script: seq<BatchReply<X>>, queue: seq<X>, size: nat, good: X -> bool)
    requires size > 0 && queue != []
    requires !Drain(script, queue[..First(|queue|, size)], 0, good).outcome.Complete?
    ensures FailsInShape(script, queue, size, good)
  {
    var head := queue[..First(|queue|, size)];
    DrainKeeps(script, head, 0, good);
    DrainSends(script, head, 0, good);
    assert queue[..0] == [];
    StopsFirst(queue, head, size, Drain(script, head, 0, good), DrainAll(script, queue[..0], size, good).all, good);
  }

  lemma FailsLater<X>(script: seq<BatchReply<X>>, head: seq<X>, tail: seq<X>, size: nat, good: X -> bool,
                      d: Drained<X>, r: Ran<X>, before: Ran<X>)
    requires 0 < |head| == size && d == Drain(script, head, 0, good) && d.outcome.Complete?
    requires r == DrainAll(d.script, tail, size, good) && r.start < |tail|
    requires before == DrainAll(d.script, tail[..r.start], size, good) && StopsAt(tail, size, r, before.all)
    ensures FailsInShape(script, head + tail, size, good)
  {
    var all, front := Extend(d, r, size), Extend(d, before, size);
    RunIs(script, head, tail, size, good, d, r, all);
    RunIs(script, head, tail[..r.start], size, good, d, before, front);
    StopsLater(head, tail, size, d, r, before);
    ShapeOf(script, head + tail, size, good, all, head + tail[..r.start], front);
  }

  lemma RunIs<X>(script: seq<BatchReply<X>>, head: seq<X>, tail: seq<X>, size: nat, good: X -> bool,
                 d: Drained<X>, r: Ran<X>, all: Ran<X>)
    requires 0 < |head| == size && d == Drain(script, head, 0, good) && d.outcome.Complete?
    requires r == DrainAll(d.script, tail, size, good) && all == Extend(d, r, size)
    ensures DrainAll(script, head + tail, size, good) == all
  {
    RunStep(script, head, tail, size, good);
  }

  /** What is left behind when a chunk exhausts its retries or one of its calls fails. */
  lemma {:induction false} FailureShape<X>(script: seq<BatchReply<X>>, queue: seq<X>, size: nat, good: X -> bool)
    requires size > 0 && !DrainAll(script, queue, size, good).all.outcome.Complete?
    ensures FailsInShape(script, queue, size, good)
    decreases |queue|
  {
    var n := First(|queue|, size);
    var head, tail := queue[..n], queue[n..];
    Halves(queue, n);
    if Drain(script, head, 0, good).outcome.Complete? {
      var d := Drain(script, head, 0, good);
      FailureShape(d.script, tail, size, good);
      var r := DrainAll(d.script, tail, size, good);
      FailsLater(script, head, tail, size, good, d, r, DrainAll(d.script, tail[..r.start], size, good));
    } else {
      FailsFirst(script, queue, size, good);
    }
  }

  function Chunks(n: nat, size: nat): nat
    requires size > 0
  {
    if n == 0 then 0 else 1 + Chunks(n - First(n, size), size)
  }

  /** The sleep of a chunk from a given attempt on is that of the retries it made. */
  predicate WaitsRight<X>(d: Drained<X>, attempt: nat) {
    var last := attempt + |d.calls| - 1;
    attempt <= last <= MAX_RETRIES && d.slept == Waits(attempt) - Waits(last)
  }

  lemma ThenWaits<X>(processed: seq<X>, request: seq<X>, attempt: nat, rest: Drained<X>)
    requires attempt < MAX_RETRIES && WaitsRight(rest, attempt + 1)
    ensures WaitsRight(Then(processed, [request], Backoff(attempt), rest), attempt)
  {}

  lemma {:induction false} DrainWaits<X>(script: seq<BatchReply<X>>, request: seq<X>, attempt: nat, good: X -> bool)
    requires attempt <= MAX_RETRIES
    ensures WaitsRight(Drain(script, request, attempt, good), attempt)
    decreases MAX_RETRIES - attempt
  {
    var c := Call(script, request, good);
    if c.left.Some? && c.left.value != [] && attempt < MAX_RETRIES {
      DrainWaits(c.script, c.left.value, attempt + 1, good);
      ThenWaits(c.processed, request, attempt, Drain(c.script, c.left.value, attempt + 1, good));
    }
  }

  lemma WaitsTable()
    ensures Waits(5) == 0 && Waits(4) == 50 && Waits(3) == 90 && Waits(2) == 120 && Waits(1) == 140 && Waits(0) == 150
  {
    assert Waits(3) == 90;
  }

  /** The n-th retry of a chunk waits n times 10 ms, however the chunk ends: what it slept in
      all is determined by how many calls it made, from one to six. */
  lemma DrainSleeps<X>(script: seq<BatchReply<X>>, request: seq<X>, good: X -> bool)
    ensures var d := Drain(script, request, 0, good);
            1 <= |d.calls| <= 6 && d.slept == [0, 10, 30, 60, 100, 150][|d.calls| - 1]
  {
    DrainWaits(script, request, 0, good);
    WaitsTable();
  }

  /** The number of chunks of 25, and of 100, is the rounded-up quotient. */
  lemma {:induction false} ChunksIsCeiling(n: nat)
    ensures Chunks(n, 25) == (n + 24) / 25 && Chunks(n, 100) == (n + 99) / 100
  {
    if n > 0 {
      ChunksIsCeiling(n - First(n, 25));
      ChunksIsCeiling(n - First(n, 100));
    }
  }

  /** The calls and the sleep of a run over so many chunks. */
  predicate CostWithin<X(==)>(d: Drained<X>, size: nat, chunks: nat) {
    (forall c <- d.calls :: 1 <= |c| <= size) && |d.calls| <= 6 * chunks && d.slept <= 150 * chunks
  }

  lemma CostAdds<X>(d: Drained<X>, rest: Drained<X>, size: nat, first: nat, chunks: nat)
    requires first <= size && Within(d, 6, first, 150) && CostWithin(rest, size, chunks)
    ensures CostWithin(Then(d.processed, d.calls, d.slept, rest), size, chunks + 1)
  {
    forall c <- d.calls + rest.calls ensures 1 <= |c| <= size {
      assert c in d.calls || c in rest.calls;
    }
  }

  lemma CostAlone<X>(d: Drained<X>, size: nat, first: nat, chunks: nat)
    requires first <= size && Within(d, 6, first, 150) && chunks >= 1
    ensures CostWithin(d, size, chunks)
  {}

  lemma ChunkCost<X>(script: seq<BatchReply<X>>, chunk: seq<X>, good: X -> bool)
    requires chunk != []
    ensures Within(Drain(script, chunk, 0, good), 6, |chunk|, 150)
  {
    WaitsTable();
    DrainCost(script, chunk, 0, good);
  }

  /** Every call is within the limit, each chunk makes at most six calls and sleeps at most
      150 ms. */
  lemma {:induction false} RunCost<X>(script: seq<BatchReply<X>>, queue: seq<X>, size: nat, good: X -> bool)
    requires size > 0
    ensures CostWithin(DrainAll(script, queue, size, good).all, size, Chunks(|queue|, size))
    decreases |queue|
  {
    if queue == [] {
    } else {
      var n := First(|queue|, size);
      var d := Drain(script, queue[..n], 0, good);
      ChunkCost(script, queue[..n], good);
      if d.outcome.Complete? {
        RunCost(d.script, queue[n..], size, good);
        CostAdds(d, DrainAll(d.script, queue[n..], size, good).all, size, n, Chunks(|queue| - n, size));
      } else {
        CostAlone(d, size, n, Chunks(|queue|, size));
      }
    }
  }

  // ----- The calls themselves -----

  function AllGood<X>(): X -> bool {
    x => true
  }

  lemma ThenThen<X>(a: seq<X>, b: seq<X>, m: seq<seq<X>>, n: seq<seq<X>>, x: nat, y: nat, d: Drained<X>)
    ensures Then(a, m, x, Then(b, n, y, d)) == Then(a + b, m + n, x + y, d)
  {
    assert a + (b + d.processed) == (a + b) + d.processed;
    assert m + (n + d.calls) == (m + n) + d.calls;
  }

  /** Adding a drained run to the account of the runs before it. */
  function Plus<X>(acc: Drained<X>, d: Drained<X>): Drained<X> {
    Then(acc.processed, acc.calls, acc.slept, d)
  }

  /** One pass of the retry loop, added to the account of the passes before it: what the
      account becomes, and what is to be sent again, nothing when the loop ends. */
  function Pass<X(==)>(acc: Drained<X>, request: seq<X>, attempt: nat, c: Called<X>): (Drained<X>, seq<X>) {
    var done := Drained(acc.processed + c.processed, Complete, c.script, acc.calls + [request], acc.slept);
    if c.left.None? then (done.(outcome := CallFailed), [])
    else if c.left.value == [] then (done, [])
    else if attempt >= MAX_RETRIES then (done.(outcome := StillUnprocessed(c.left.value)), [])
    else (done.(slept := acc.slept + Backoff(attempt)), c.left.value)
  }

  lemma PassStep<X>(acc: Drained<X>, script: seq<BatchReply<X>>, request: seq<X>, attempt: nat,
                    good: X -> bool, c: Called<X>)
    requires attempt <= MAX_RETRIES && c == Call(script, request, good)
    ensures var (acc', again) := Pass(acc, request, attempt, c);
            && (again != [] ==> attempt < MAX_RETRIES)
            && acc'.script == c.script
            && Plus(acc, Drain(script, request, attempt, good))
               == if again == [] then acc' else Plus(acc', Drain(c.script, again, attempt + 1, good))
  {
    if c.left.Some? && c.left.value != [] && attempt < MAX_RETRIES {
      ThenThen(acc.processed, c.processed, acc.calls, [request], acc.slept, Backoff(attempt),
               Drain(c.script, c.left.value, attempt + 1, good));
    }
  }

  lemma ExtendTwice<X>(acc: Drained<X>, d: Drained<X>, r: Ran<X>, m: nat, n: nat)
    ensures Extend(acc, Extend(d, r, n), m) == Extend(Plus(acc, d), r, m + n)
  {
    ThenThen(acc.processed, d.processed, acc.calls, d.calls, acc.slept, d.slept, r.all);
  }

  lemma RunFirst<X>(script: seq<BatchReply<X>>, rest: seq<X>, size: nat, good: X -> bool, n: nat, d: Drained<X>)
    requires size > 0 && rest != [] && n == First(|rest|, size) && d == Drain(script, rest[..n], 0, good)
    ensures DrainAll(script, rest, size, good)
            == if d.outcome.Complete?
               then Extend(d, DrainAll(d.script, rest[n..], size, good), n) else Ran(d, 0)
  {}

  /** One pass of the loop over the chunks. */
  lemma ChunkStep<X>(acc: Drained<X>, script: seq<BatchReply<X>>, queue: seq<X>, start: nat, size: nat,
                     good: X -> bool, n: nat, d: Drained<X>)
    requires size > 0 && start < |queue| && n == First(|queue| - start, size)
    requires d == Drain(script, queue[start..start + n], 0, good)
    ensures Extend(acc, DrainAll(script, queue[start..], size, good), start)
            == if d.outcome.Complete?
               then Extend(Plus(acc, d), DrainAll(d.script, queue[start + n..], size, good), start + n)
               else Ran(Plus(acc, d), start)
  {
    Slices(queue, start, n);
    RunFirst(script, queue[start..], size, good, n, d);
    if d.outcome.Complete? {
      ExtendTwice(acc, d, DrainAll(d.script, queue[start + n..], size, good), start, n);
    }
  }

  lemma Slices<X>(s: seq<X>, m: nat, n: nat)
    requires m + n <= |s|
    ensures s[m..][..n] == s[m..m + n] && s[m..][n..] == s[m + n..]
  {}

  /** The connection a builder uses: the replies the service will give. */
  class Wire<X(==)> {
    var replies: seq<BatchReply<X>>

    method Send(request: seq<X>, good: X -> bool) returns (processed: seq<X>, left: Option<seq<X>>)
      modifies this
      ensures Called(processed, left, replies) == Call(old(replies), request, good)
    {
      var c := Call(replies, request, good);
      replies, processed, left := c.script, c.processed, c.left;
    }

    method Attempt(acc: Drained<X>, request: seq<X>, attempt: nat, good: X -> bool)
      returns (acc': Drained<X>, again: seq<X>)
      requires attempt <= MAX_RETRIES
      modifies this
      ensures acc'.script == replies && (again != [] ==> attempt < MAX_RETRIES)
      ensures old(Plus(acc, Drain(replies, request, attempt, good)))
              == if again == [] then acc' else Plus(acc', Drain(replies, again, attempt + 1, good))
    {
      ghost var from := replies;
      var processed, left := Send(request, good);
      PassStep(acc, from, request, attempt, good, Called(processed, left, replies));
      var done := Drained(acc.processed + processed, Complete, replies, acc.calls + [request], acc.slept);
      if left.None? { return done.(outcome := CallFailed), []; }
      if left.value == [] { return done, []; }
      if attempt >= MAX_RETRIES { return done.(outcome := StillUnprocessed(left.value)), []; }
      return done.(slept := acc.slept + Backoff(attempt)), left.value;
    }

    /** The retry loop of both runChunk methods: what is left is sent again until nothing is,
        or the attempts are used up. */
    method SendAll(chunk: seq<X>, good: X -> bool) returns (d: Drained<X>)
      modifies this
      ensures d == Drain(old(replies), chunk, 0, good) && replies == d.script
    {
      var request, attempt := chunk, 0;
      d := Drained([], Complete, replies, [], 0);
      PlusNothing(d, Drain(replies, chunk, 0, good));
      while true
        invariant attempt <= MAX_RETRIES
        invariant Plus(d, Drain(replies, request, attempt, good)) == Drain(old(replies), chunk, 0, good)
        decreases MAX_RETRIES - attempt
      {
        var again;
        d, again := Attempt(d, request, attempt, good);
        if again == [] { return; }
        request, attempt := again, attempt + 1;
      }
    }
  }

  lemma PlusNothing<X>(acc: Drained<X>, d: Drained<X>)
    requires acc.processed == [] && acc.calls == [] && acc.slept == 0
    ensures Plus(acc, d) == d
  {}
}
