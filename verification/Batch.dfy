/** Batched writes and reads. */
module Batch {
  import opened Text
  import opened Store
  import opened Tags
  import opened Model
  import opened Keys
  import opened Compress
  import opened Crud
  import opened Stamping
  import opened Retry
  import opened Sequences

  const GET_MAX_KEYS := 100
  const WRITE_MAX_REQUESTS := 25

  // ----- Batched write requests -----

  /** A batch entry: the key it addresses and what it leaves there. It has no condition. */
  datatype Req = Req(key: Key, after: Option<Attrs>)

  predicate Batchable(w: Write) {
    (w.PutItem? || w.DeleteItem?) && Target(w).Some?
  }

  predicate AllBatchable(ws: seq<Write>) {
    forall w <- ws :: Batchable(w)
  }

  /** A stamped put loses its condition. */
  function Strip(w: Write): Req
    requires Batchable(w)
  {
    Req(Target(w).value, if w.PutItem? then Some(w.item) else None)
  }

  function Strips(ws: seq<Write>): seq<Req>
    requires AllBatchable(ws)
  {
    seq(|ws|, i requires 0 <= i < |ws| => Strip(ws[i]))
  }

  function ApplyReqs(t: Table, rs: seq<Req>): Table {
    if rs == [] then t
    else
      var n := |rs| - 1;
      Place(ApplyReqs(t, rs[..n]), rs[n].key, rs[n].after)
  }

  /** What requests applied in order leave at one key. */
  function Final(was: Option<Attrs>, rs: seq<Req>, k: Key): Option<Attrs> {
    if rs == [] then was
    else
      var n := |rs| - 1;
      if rs[n].key == k then rs[n].after else Final(was, rs[..n], k)
  }

  function KeysIn(rs: seq<Req>): set<Key> {
    set r <- rs :: r.key
  }

  lemma {:induction false} LookupApply(t: Table, rs: seq<Req>, k: Key)
    ensures Lookup(ApplyReqs(t, rs), k) == Final(Lookup(t, k), rs, k)
  {
    if rs == [] {
    } else {
      LookupApply(t, rs[..|rs| - 1], k);
    }
  }

  lemma SameTable(t: Table, a: seq<Req>, b: seq<Req>)
    ensures (forall k :: Final(Lookup(t, k), a, k) == Final(Lookup(t, k), b, k)) <==> ApplyReqs(t, a) == ApplyReqs(t, b)
  {
    forall k
      ensures Lookup(ApplyReqs(t, a), k) == Final(Lookup(t, k), a, k)
      ensures Lookup(ApplyReqs(t, b), k) == Final(Lookup(t, k), b, k)
    {
      LookupApply(t, a, k);
      LookupApply(t, b, k);
    }
    if forall k :: Final(Lookup(t, k), a, k) == Final(Lookup(t, k), b, k) {
      forall k ensures Lookup(ApplyReqs(t, a), k) == Lookup(ApplyReqs(t, b), k) {
        assert Final(Lookup(t, k), a, k) == Final(Lookup(t, k), b, k);
      }
      SameLookups(ApplyReqs(t, a), ApplyReqs(t, b));
    }
  }

  lemma SameLookups(s: Table, t: Table)
    requires forall k :: Lookup(s, k) == Lookup(t, k)
    ensures s == t
  {
    assert forall k :: Lookup(s, k).Some? <==> k in s;
    assert forall k :: Lookup(t, k).Some? <==> k in t;
  }

  lemma {:induction false} FinalConcat(was: Option<Attrs>, a: seq<Req>, b: seq<Req>, k: Key)
    ensures Final(was, a + b, k) == Final(Final(was, a, k), b, k)
  {
    if b == [] {
      assert a + b == a;
    } else {
      var n := |b| - 1;
      assert (a + b)[..|a + b| - 1] == a + b[..n];
      FinalConcat(was, a, b[..n], k);
    }
  }

  lemma {:induction false} ApplyConcat(t: Table, a: seq<Req>, b: seq<Req>)
    ensures ApplyReqs(t, a + b) == ApplyReqs(ApplyReqs(t, a), b)
  {
    if b == [] {
      assert a + b == a;
    } else {
      var n := |b| - 1;
      assert (a + b)[..|a + b| - 1] == a + b[..n];
      ApplyConcat(t, a, b[..n]);
    }
  }

  /** A key that is not mentioned keeps its value; one that is gets the value of one of its
      requests, whatever was there before. */
  lemma {:induction false} FinalOf(was: Option<Attrs>, rs: seq<Req>, k: Key)
    ensures k !in KeysIn(rs) ==> Final(was, rs, k) == was
    ensures k in KeysIn(rs) ==> Req(k, Final(was, rs, k)) in rs && forall w :: Final(w, rs, k) == Final(was, rs, k)
  {
    if rs == [] {
    } else {
      var n := |rs| - 1;
      assert rs[n] in rs;
      FinalOf(was, rs[..n], k);
      assert forall r <- rs[..n] :: r in rs;
      if k in KeysIn(rs) && rs[n].key != k {
        var r :| r in rs && r.key == k;
        assert r in rs[..n];
        forall w ensures Final(w, rs, k) == Final(was, rs, k) {
          assert Final(w, rs[..n], k) == Final(was, rs[..n], k);
        }
      }
    }
  }

  // ----- When a batch is as good as applying the queue one by one -----

  /** For every key, all requests on it in the last chunk that mentions it are the same. */
  ghost predicate Settled(writes: seq<Req>)
    decreases |writes|
  {
    writes == [] ||
    (var n := First(|writes|, WRITE_MAX_REQUESTS);
     && (forall x, y | x in writes[..n] && y in writes[..n] && x.key == y.key && x.key !in KeysIn(writes[n..]) ::
           x == y)
     && Settled(writes[n..]))
  }

  lemma PermutedChunk(was: Option<Attrs>, p: seq<Req>, chunk: seq<Req>, k: Key)
    requires multiset(p) == multiset(chunk)
    requires forall x, y | x in chunk && y in chunk && x.key == k && y.key == k :: x == y
    ensures Final(was, p, k) == Final(was, chunk, k)
  {
    FinalOf(was, p, k);
    FinalOf(was, chunk, k);
    assert forall x :: x in p <==> x in multiset(p);
    assert forall x :: x in chunk <==> x in multiset(chunk);
  }

  /** A settled queue ends the same in every complete run. */
  lemma {:induction false} SettledRun(script: seq<BatchReply<Req>>, writes: seq<Req>, was: Option<Attrs>, k: Key)
    requires Settled(writes) && DrainAll(script, writes, WRITE_MAX_REQUESTS, AllGood()).all.outcome.Complete?
    ensures Final(was, DrainAll(script, writes, WRITE_MAX_REQUESTS, AllGood()).all.processed, k)
            == Final(was, writes, k)
    decreases |writes|
  {
    if writes == [] {
    } else {
      var n := First(|writes|, WRITE_MAX_REQUESTS);
      var head, tail := writes[..n], writes[n..];
      assert writes == head + tail;
      var d := Drain(script, head, 0, AllGood());
      DrainKeeps(script, head, 0, AllGood());
      SettledRun(d.script, tail, Final(was, d.processed, k), k);
      FinalConcat(was, d.processed, DrainAll(d.script, tail, WRITE_MAX_REQUESTS, AllGood()).all.processed, k);
      FinalConcat(was, head, tail, k);
      if k in KeysIn(tail) {
        FinalOf(Final(was, head, k), tail, k);
      } else {
        PermutedChunk(was, d.processed, head, k);
      }
    }
  }

  /** A service that processes each chunk whole. */
  function WholeScript(writes: seq<Req>): seq<BatchReply<Req>>
    decreases |writes|
  {
    if writes == [] then []
    else
      var n := First(|writes|, WRITE_MAX_REQUESTS);
      [BatchReply(writes[..n], [], true)] + WholeScript(writes[n..])
  }

  /** One reply takes the first chunk, in some order. */
  lemma TakesFirst(p: seq<Req>, rest: seq<BatchReply<Req>>, writes: seq<Req>)
    requires writes != [] && multiset(p) == multiset(writes[..First(|writes|, WRITE_MAX_REQUESTS)])
    ensures var n := First(|writes|, WRITE_MAX_REQUESTS);
            var r := DrainAll(rest, writes[n..], WRITE_MAX_REQUESTS, AllGood());
            var q := DrainAll([BatchReply(p, [], true)] + rest, writes, WRITE_MAX_REQUESTS, AllGood());
            q.all.processed == p + r.all.processed && q.all.outcome == r.all.outcome
  {
    var head := writes[..First(|writes|, WRITE_MAX_REQUESTS)];
    var script := [BatchReply(p, [], true)] + rest;
    assert script[0] == BatchReply(p, [], true) && script[1..] == rest;
    assert multiset(p) + multiset([]) == multiset(head);
    assert Drain(script, head, 0, AllGood()) == Drained(p, Complete, rest, [head], 0);
  }

  lemma {:induction false} WholeRun(writes: seq<Req>)
    ensures var d := DrainAll(WholeScript(writes), writes, WRITE_MAX_REQUESTS, AllGood()).all;
            d.outcome.Complete? && d.processed == writes
    decreases |writes|
  {
    if writes == [] {
    } else {
      var n := First(|writes|, WRITE_MAX_REQUESTS);
      WholeRun(writes[n..]);
      TakesFirst(writes[..n], WholeScript(writes[n..]), writes);
      assert writes == writes[..n] + writes[n..];
    }
  }

  function MoveLast(rs: seq<Req>, i: nat): (p: seq<Req>)
    requires i < |rs|
    ensures multiset(p) == multiset(rs) && p != [] && p[|p| - 1] == rs[i]
  {
    assert rs == rs[..i] + [rs[i]] + rs[i + 1..];
    rs[..i] + rs[i + 1..] + [rs[i]]
  }

  lemma WrongLast(p: seq<Req>, head: seq<Req>, tail: seq<Req>, k: Key)
    requires p != [] && p[|p| - 1].key == k && k in KeysIn(head) && k !in KeysIn(tail)
    requires p[|p| - 1].after != Final(None, head, k)
    ensures forall was :: Final(was, p + tail, k) != Final(was, head + tail, k)
  {
    forall was ensures Final(was, p + tail, k) != Final(was, head + tail, k) {
      FinalConcat(was, p, tail, k);
      FinalConcat(was, head, tail, k);
      FinalOf(Final(was, p, k), tail, k);
      FinalOf(Final(was, head, k), tail, k);
      FinalOf(None, head, k);
      assert Final(was, head, k) == Final(None, head, k);
    }
  }

  /** The first chunk processed in an order that leaves the wrong value at a key. */
  lemma ReorderedChunk(writes: seq<Req>, p: seq<Req>, k: Key)
    requires writes != [] && p != [] && p[|p| - 1].key == k
    requires var n := First(|writes|, WRITE_MAX_REQUESTS);
             && multiset(p) == multiset(writes[..n]) && k in KeysIn(writes[..n]) && k !in KeysIn(writes[n..])
             && p[|p| - 1].after != Final(None, writes[..n], k)
    ensures var tail := writes[First(|writes|, WRITE_MAX_REQUESTS)..];
            var d := DrainAll([BatchReply(p, [], true)] + WholeScript(tail), writes, WRITE_MAX_REQUESTS, AllGood()).all;
            d.outcome.Complete? && forall was :: Final(was, d.processed, k) != Final(was, writes, k)
  {
    var n := First(|writes|, WRITE_MAX_REQUESTS);
    WholeRun(writes[n..]);
    TakesFirst(p, WholeScript(writes[n..]), writes);
    WrongLast(p, writes[..n], writes[n..], k);
    assert writes == writes[..n] + writes[n..];
  }

  /** Two different requests on a key in its last chunk: the service can process the wrong
      one last. */
  lemma UnsettledChunk(writes: seq<Req>, x: Req, y: Req) returns (script: seq<BatchReply<Req>>)
    requires writes != []
    requires var n := First(|writes|, WRITE_MAX_REQUESTS);
             x in writes[..n] && y in writes[..n] && x.key == y.key && x != y && x.key !in KeysIn(writes[n..])
    ensures var d := DrainAll(script, writes, WRITE_MAX_REQUESTS, AllGood()).all;
            d.outcome.Complete? && forall was :: Final(was, d.processed, x.key) != Final(was, writes, x.key)
  {
    var n, k := First(|writes|, WRITE_MAX_REQUESTS), x.key;
    var head, tail := writes[..n], writes[n..];
    var z := if x.after != Final(None, head, k) then x else y;
    var i :| 0 <= i < n && head[i] == z;
    var p := MoveLast(head, i);
    script := [BatchReply(p, [], true)] + WholeScript(tail);
    ReorderedChunk(writes, p, k);
  }

  /** What goes wrong in the later chunks goes wrong in the whole queue. */
  lemma UnsettledLater(writes: seq<Req>, rest: seq<BatchReply<Req>>, k: Key)
    requires writes != []
    requires var tail := writes[First(|writes|, WRITE_MAX_REQUESTS)..];
             var d := DrainAll(rest, tail, WRITE_MAX_REQUESTS, AllGood()).all;
             d.outcome.Complete? && forall was :: Final(was, d.processed, k) != Final(was, tail, k)
    ensures var head := writes[..First(|writes|, WRITE_MAX_REQUESTS)];
            var d := DrainAll([BatchReply(head, [], true)] + rest, writes, WRITE_MAX_REQUESTS, AllGood()).all;
            d.outcome.Complete? && forall was :: Final(was, d.processed, k) != Final(was, writes, k)
  {
    var n := First(|writes|, WRITE_MAX_REQUESTS);
    var head, tail := writes[..n], writes[n..];
    TakesFirst(head, rest, writes);
    assert writes == head + tail;
    var processed := DrainAll(rest, tail, WRITE_MAX_REQUESTS, AllGood()).all.processed;
    forall was ensures Final(was, head + processed, k) != Final(was, writes, k) {
      FinalConcat(was, head, processed, k);
      FinalConcat(was, head, tail, k);
    }
  }

  /** For a queue that is not settled some complete run differs, at a key the queue mentions. */
  lemma {:induction false} UnsettledRun(writes: seq<Req>) returns (script: seq<BatchReply<Req>>, k: Key)
    requires !Settled(writes)
    ensures var d := DrainAll(script, writes, WRITE_MAX_REQUESTS, AllGood()).all;
            d.outcome.Complete? && forall was :: Final(was, d.processed, k) != Final(was, writes, k)
    decreases |writes|
  {
    var n := First(|writes|, WRITE_MAX_REQUESTS);
    var head, tail := writes[..n], writes[n..];
    if x, y :| x in head && y in head && x.key == y.key && x.key !in KeysIn(tail) && x != y {
      k := x.key;
      script := UnsettledChunk(writes, x, y);
    } else {
      var rest;
      rest, k := UnsettledRun(tail);
      script := [BatchReply(head, [], true)] + rest;
      UnsettledLater(writes, rest, k);
    }
  }

  /** A batch that reports success leaves the table as applying its requests one by one in
      queue order would, for every choice of unprocessed parts and processing order, if and
      only if the queue is settled. */
  lemma BatchIsSequentialIff(t: Table, writes: seq<Req>)
    ensures (forall script: seq<BatchReply<Req>> ::
               var d := DrainAll(script, writes, WRITE_MAX_REQUESTS, AllGood()).all;
               d.outcome.Complete? ==> ApplyReqs(t, d.processed) == ApplyReqs(t, writes))
            <==> Settled(writes)
  {
    if Settled(writes) {
      forall script: seq<BatchReply<Req>>
        ensures var d := DrainAll(script, writes, WRITE_MAX_REQUESTS, AllGood()).all;
                d.outcome.Complete? ==> ApplyReqs(t, d.processed) == ApplyReqs(t, writes)
      {
        if DrainAll(script, writes, WRITE_MAX_REQUESTS, AllGood()).all.outcome.Complete? {
          SettledPrefix(t, script, writes);
        }
      }
    } else {
      var script, k := UnsettledRun(writes);
      var d := DrainAll(script, writes, WRITE_MAX_REQUESTS, AllGood()).all;
      assert Final(Lookup(t, k), d.processed, k) != Final(Lookup(t, k), writes, k);
      SameTable(t, d.processed, writes);
    }
  }

  /** In particular when no chunk mentions a key twice. */
  lemma {:induction false} DistinctIsSettled(writes: seq<Req>)
    requires forall i, j | 0 <= i < j < |writes| && i / 25 == j / 25 :: writes[i].key != writes[j].key
    ensures Settled(writes)
    decreases |writes|
  {
    if writes == [] {
    } else {
      var n := First(|writes|, WRITE_MAX_REQUESTS);
      forall x, y | x in writes[..n] && y in writes[..n] && x.key == y.key ensures x == y {
        var i :| 0 <= i < n && writes[i] == x;
        var j :| 0 <= j < n && writes[j] == y;
        assert i / 25 == 0 && j / 25 == 0;
      }
      var tail := writes[n..];
      forall i, j | 0 <= i < j < |tail| && i / 25 == j / 25 ensures tail[i].key != tail[j].key {
        assert (i + 25) / 25 == i / 25 + 1 && (j + 25) / 25 == j / 25 + 1;
        assert writes[i + n].key != writes[j + n].key;
      }
      DistinctIsSettled(tail);
    }
  }

  predicate DistinctKeys(rs: seq<Req>) {
    forall i, j | 0 <= i < j < |rs| :: rs[i].key != rs[j].key
  }

  /** Exactly the entries outside left have taken effect, on top of t. */
  ghost predicate TookEffect(after: Table, t: Table, chunk: seq<Req>, left: seq<Req>) {
    && (forall x <- chunk :: Lookup(after, x.key) == if x in left then Lookup(t, x.key) else x.after)
    && (forall k | k !in KeysIn(chunk) :: Lookup(after, k) == Lookup(t, k))
  }

  /** Some of the entries have taken effect, on top of t, and nothing else has. */
  ghost predicate TookPart(after: Table, t: Table, chunk: seq<Req>) {
    && (forall x <- chunk :: Lookup(after, x.key) == Lookup(t, x.key) || Lookup(after, x.key) == x.after)
    && (forall k | k !in KeysIn(chunk) :: Lookup(after, k) == Lookup(t, k))
  }

  /** What a run that stopped in a chunk leaves behind. */
  ghost predicate LeavesBehind(after: Table, t: Table, chunk: seq<Req>, outcome: Outcome<Req>) {
    match outcome
    case Complete => false
    case CallFailed => TookPart(after, t, chunk)
    case StillUnprocessed(left) => TookEffect(after, t, chunk, left)
  }

  lemma StoppedTable(t: Table, r: Ran<Req>, before: Drained<Req>, chunk: seq<Req>)
    requires Stopped(r, before, chunk) && DistinctKeys(chunk)
    ensures LeavesBehind(ApplyReqs(t, r.all.processed), ApplyReqs(t, before.processed), chunk, r.all.outcome)
  {
    var part := r.all.processed[|before.processed|..];
    assert r.all.processed == before.processed + part;
    ApplyConcat(t, before.processed, part);
    if r.all.outcome.CallFailed? {
      SomeOfChunk(ApplyReqs(t, before.processed), part, chunk);
    } else {
      PartOfChunk(ApplyReqs(t, before.processed), part, r.all.outcome.left, chunk);
    }
  }

  lemma SomeOfChunk(t: Table, part: seq<Req>, chunk: seq<Req>)
    requires multiset(part) <= multiset(chunk) && DistinctKeys(chunk)
    ensures TookPart(ApplyReqs(t, part), t, chunk)
  {
    forall y <- part ensures y in chunk { assert y in multiset(part) && y in multiset(chunk); }
    forall k
      ensures Lookup(ApplyReqs(t, part), k) == Lookup(t, k) || Req(k, Lookup(ApplyReqs(t, part), k)) in chunk
    {
      LookupApply(t, part, k);
      FinalOf(Lookup(t, k), part, k);
    }
  }

  /** A settled prefix of the queue that was applied completely is as good as applied one by one. */
  lemma SettledPrefix(t: Table, script: seq<BatchReply<Req>>, writes: seq<Req>)
    requires Settled(writes) && DrainAll(script, writes, WRITE_MAX_REQUESTS, AllGood()).all.outcome.Complete?
    ensures ApplyReqs(t, DrainAll(script, writes, WRITE_MAX_REQUESTS, AllGood()).all.processed) == ApplyReqs(t, writes)
  {
    var d := DrainAll(script, writes, WRITE_MAX_REQUESTS, AllGood()).all;
    forall k ensures Final(Lookup(t, k), d.processed, k) == Final(Lookup(t, k), writes, k) {
      SettledRun(script, writes, Lookup(t, k), k);
    }
    SameTable(t, d.processed, writes);
  }

  /** When a chunk with distinct keys exhausts its retries, exactly its entries outside the
      last unprocessed ones have taken effect; when one of its calls fails, some of them have.
      Either way on top of the complete chunks before it, which are the queue up to there
      applied one by one if that part is settled. */
  lemma BatchFailure(t: Table, script: seq<BatchReply<Req>>, writes: seq<Req>)
    requires !DrainAll(script, writes, WRITE_MAX_REQUESTS, AllGood()).all.outcome.Complete?
    ensures var r := DrainAll(script, writes, WRITE_MAX_REQUESTS, AllGood());
            && r.start < |writes| && ChunkStart(r.start, WRITE_MAX_REQUESTS)
            && var before := DrainAll(script, writes[..r.start], WRITE_MAX_REQUESTS, AllGood()).all;
               var t' := ApplyReqs(t, before.processed);
               var chunk := ChunkAt(writes, r.start, WRITE_MAX_REQUESTS);
               && before.outcome.Complete?
               && (Settled(writes[..r.start]) ==> t' == ApplyReqs(t, writes[..r.start]))
               && (DistinctKeys(chunk) ==> LeavesBehind(ApplyReqs(t, r.all.processed), t', chunk, r.all.outcome))
  {
    FailureShape(script, writes, WRITE_MAX_REQUESTS, AllGood<Req>());
    var r := DrainAll(script, writes, WRITE_MAX_REQUESTS, AllGood());
    var chunk := ChunkAt(writes, r.start, WRITE_MAX_REQUESTS);
    if DistinctKeys(chunk) {
      StoppedTable(t, r, DrainAll(script, writes[..r.start], WRITE_MAX_REQUESTS, AllGood()).all, chunk);
    }
    if Settled(writes[..r.start]) { SettledPrefix(t, script, writes[..r.start]); }
  }

  lemma MemberOfSum(a: seq<Req>, b: seq<Req>, c: seq<Req>, x: Req)
    requires multiset(a) + multiset(b) == multiset(c)
    ensures x in a || x in b <==> x in c
    ensures multiset(c)[x] == 1 ==> (x in a <==> x !in b)
  {
    assert x in a <==> x in multiset(a);
    assert x in b <==> x in multiset(b);
    assert x in c <==> x in multiset(c);
    assert multiset(c)[x] == multiset(a)[x] + multiset(b)[x];
  }

  lemma PartOfChunk(t: Table, part: seq<Req>, left: seq<Req>, chunk: seq<Req>)
    requires multiset(part) + multiset(left) == multiset(chunk) && DistinctKeys(chunk)
    ensures TookEffect(ApplyReqs(t, part), t, chunk, left)
  {
    forall y | y in part || y in left ensures y in chunk { MemberOfSum(part, left, chunk, y); }
    forall x <- chunk ensures Lookup(ApplyReqs(t, part), x.key) == if x in left then Lookup(t, x.key) else x.after {
      LookupApply(t, part, x.key);
      FinalOf(Lookup(t, x.key), part, x.key);
      assert forall y <- chunk | y.key == x.key :: y == x;
      Once(chunk, x);
      MemberOfSum(part, left, chunk, x);
    }
    forall k | k !in KeysIn(chunk) ensures Lookup(ApplyReqs(t, part), k) == Lookup(t, k) {
      LookupApply(t, part, k);
      FinalOf(Lookup(t, k), part, k);
    }
  }

  lemma {:induction false} Once(chunk: seq<Req>, x: Req)
    requires x in chunk && DistinctKeys(chunk)
    ensures multiset(chunk)[x] == 1
  {
    assert chunk == [chunk[0]] + chunk[1..];
    if chunk[0] == x {
      assert forall i | 0 <= i < |chunk[1..]| :: chunk[1..][i].key != x.key;
      assert x !in chunk[1..];
      assert x !in multiset(chunk[1..]);
    } else {
      assert x in chunk[1..];
      Once(chunk[1..], x);
    }
  }

  // ----- BatchWrite -----

  predicate Deletes<P(==)>(ops: seq<Queued<P>>) {
    forall op <- ops :: op.Ready? ==> op.w.DeleteItem?
  }

  lemma SealBatchable(cfg: Config, e: Entity, a: Args)
    requires SealOf(cfg, e, a).Some?
    ensures Batchable(SealOf(cfg, e, a).value)
  {
    RecordHolds(cfg, e, a);
  }

  lemma {:induction false} StampedBatchable<P>(cfg: Config, mem: map<P, Entity>, ops: seq<Queued<P>>, args: seq<Args>)
    requires |ops| <= |args| && Deletes(ops) && forall op <- ops :: op.QueuedPut? ==> op.item in mem
    ensures AllBatchable(StampAll(cfg, mem, ops, args).writes)
  {
    if ops == [] {
    } else {
      var n := |ops| - 1;
      StampedBatchable(cfg, mem, ops[..n], args);
      assert ops[n] in ops;
      var r := StampAll(cfg, mem, ops[..n], args);
      if ops[n].QueuedPut? && SealOf(cfg, r.mem[ops[n].item], args[n]).Some? {
        SealBatchable(cfg, r.mem[ops[n].item], args[n]);
      }
    }
  }

  function Unguarded(w: Write): Write {
    match w
    case PutItem(item, _) => PutItem(item, Always)
    case _ => w
  }

  /** A stripped request is the write without its condition. */
  lemma StripApplied(t: Table, w: Write)
    requires Batchable(w)
    ensures ApplyReqs(t, [Strip(w)]) == Apply(t, Unguarded(w))
  {
    assert [Strip(w)][..0] == [];
  }

  function Unguardeds(ws: seq<Write>): seq<Write> {
    seq(|ws|, i requires 0 <= i < |ws| => Unguarded(ws[i]))
  }

  /** The requests of a queue applied in order are its unguarded writes applied in order. */
  lemma {:induction false} StripsApplied(t: Table, ws: seq<Write>)
    requires AllBatchable(ws)
    ensures forall w <- Unguardeds(ws) :: Target(w).Some?
    ensures ApplyReqs(t, Strips(ws)) == ApplyAll(t, Unguardeds(ws))
    decreases |ws|
  {
    if ws == [] {
    } else {
      assert ws[0] in ws;
      StripApplied(t, ws[0]);
      StripsApplied(Apply(t, Unguarded(ws[0])), ws[1..]);
      assert Strips(ws) == [Strip(ws[0])] + Strips(ws[1..]);
      assert Unguardeds(ws)[1..] == Unguardeds(ws[1..]);
      ApplyConcat(t, [Strip(ws[0])], Strips(ws[1..]));
    }
  }

  /** The service's part of a batch: its requests in chunks of 25. */
  function BatchRun(replies: seq<BatchReply<Req>>, stamped: seq<Write>): Drained<Req>
    requires AllBatchable(stamped)
  {
    DrainAll(replies, Strips(stamped), WRITE_MAX_REQUESTS, AllGood()).all
  }

  /** What the table becomes and the caller is told once all puts are stamped. Success means
      that every request was processed as often as it was queued, so that a settled queue is as
      good as its writes applied one by one without their conditions; a chunk left with
      unprocessed entries or a failed call is an error. */
  ghost predicate BatchTold(t: Table, replies: seq<BatchReply<Req>>, stamped: seq<Write>, after: Table, r: Status)
    requires AllBatchable(stamped)
  {
    var all := BatchRun(replies, stamped);
    && after == ApplyReqs(t, all.processed)
    && (all.outcome.StillUnprocessed? || all.outcome.CallFailed? ==> r == Err(Failed))
    && (all.outcome.Complete? ==> r == Ok)
    && (r == Ok ==> multiset(all.processed) == multiset(Strips(stamped)))
    && (r == Ok && Settled(Strips(stamped)) ==>
          (forall w <- Unguardeds(stamped) :: Target(w).Some?) && after == ApplyAll(t, Unguardeds(stamped)))
  }

  lemma CompleteTold(t: Table, replies: seq<BatchReply<Req>>, stamped: seq<Write>)
    requires AllBatchable(stamped) && BatchRun(replies, stamped).outcome.Complete?
    ensures BatchTold(t, replies, stamped, ApplyReqs(t, BatchRun(replies, stamped).processed), Ok)
  {
    RunComplete(replies, Strips(stamped), WRITE_MAX_REQUESTS, AllGood<Req>());
    StripsApplied(t, stamped);
    if Settled(Strips(stamped)) { SettledPrefix(t, replies, Strips(stamped)); }
  }

  class BatchWriteBuilder {
    const t: StructType
    var ops: seq<Queued<Item>>
    var err: bool

    constructor (t: StructType)
      ensures this.t == t && ops == [] && !err
    {
      this.t, ops, err := t, [], false;
    }

    method Put(items: seq<Item>)
      modifies this
      ensures err == old(err)
      ensures ops == if err then old(ops)
                     else old(ops) + seq(|items|, i requires 0 <= i < |items| => QueuedPut(items[i]))
    {
      if err { return; }
      for i := 0 to |items|
        invariant err == old(err)
        invariant ops == old(ops) + seq(i, j requires 0 <= j < i => QueuedPut(items[j]))
      {
        ops := ops + [QueuedPut(items[i])];
      }
    }

    /** A type with key clauses latches an error, and the builder ignores every later call. */
    method Delete(ids: seq<string>)
      modifies this
      ensures err == (old(err) || !DefaultKey(t))
      ensures ops == if err then old(ops)
                     else old(ops) + seq(|ids|, i requires 0 <= i < |ids| => Ready(DeleteItem(IdKey(t, ids[i]))))
    {
      if err { return; }
      if !DefaultKey(t) {
        err := true;
        return;
      }
      for i := 0 to |ids|
        invariant !err
        invariant ops == old(ops) + seq(i, j requires 0 <= j < i => Ready(DeleteItem(IdKey(t, ids[j]))))
      {
        ops := ops + [Ready(DeleteItem(IdKey(t, ids[i])))];
      }
    }

    /** runChunk: every entry the service processes takes effect on the table. */
    static method RunChunk(svc: Service, wire: Wire<Req>, writes: seq<Req>) returns (d: Drained<Req>)
      modifies svc, wire
      ensures d == Drain(old(wire.replies), writes, 0, AllGood()) && wire.replies == d.script
      ensures svc.table == ApplyReqs(old(svc.table), d.processed)
    {
      d := wire.SendAll(writes, AllGood());
      svc.table := ApplyReqs(svc.table, d.processed);
    }

    /** One pass of the loop over the chunks, added to the account of the passes before it. */
    static method NextChunk(svc: Service, wire: Wire<Req>, writes: seq<Req>, start: nat, acc: Drained<Req>,
                        ghost t: Table)
      returns (acc': Drained<Req>, next: nat)
      requires start < |writes| && svc.table == ApplyReqs(t, acc.processed)
      modifies svc, wire
      ensures start < next <= |writes| && acc'.script == wire.replies && svc.table == ApplyReqs(t, acc'.processed)
      ensures old(Extend(acc, DrainAll(wire.replies, writes[start..], WRITE_MAX_REQUESTS, AllGood()), start))
              == if acc'.outcome.Complete?
                 then Extend(acc', DrainAll(wire.replies, writes[next..], WRITE_MAX_REQUESTS, AllGood()), next)
                 else Ran(acc', start)
    {
      ghost var from := wire.replies;
      var n := First(|writes| - start, WRITE_MAX_REQUESTS);
      var d := RunChunk(svc, wire, writes[start..start + n]);
      ChunkStep(acc, from, writes, start, WRITE_MAX_REQUESTS, AllGood(), n, d);
      ApplyConcat(t, acc.processed, d.processed);
      acc', next := Plus(acc, d), start + n;
    }

    /** The loop over the chunks, up to the first that fails. */
    static method RunChunks(svc: Service, wire: Wire<Req>, writes: seq<Req>) returns (r: Ran<Req>)
      modifies svc, wire
      ensures r == DrainAll(old(wire.replies), writes, WRITE_MAX_REQUESTS, AllGood())
      ensures svc.table == ApplyReqs(old(svc.table), r.all.processed)
    {
      var start: nat := 0;
      var acc := Drained([], Complete, wire.replies, [], 0);
      assert writes[0..] == writes;
      while start < |writes|
        invariant start <= |writes| && acc.outcome.Complete? && acc.script == wire.replies
        invariant Extend(acc, DrainAll(wire.replies, writes[start..], WRITE_MAX_REQUESTS, AllGood()), start)
                  == DrainAll(old(wire.replies), writes, WRITE_MAX_REQUESTS, AllGood())
        invariant svc.table == ApplyReqs(old(svc.table), acc.processed)
      {
        var next;
        acc, next := NextChunk(svc, wire, writes, start, acc, old(svc.table));
        if !acc.outcome.Complete? { return Ran(acc, start); }
        start := next;
      }
      r := Ran(acc, start);
    }

    static method StripAll(stamped: seq<Write>) returns (writes: seq<Req>)
      requires AllBatchable(stamped)
      ensures writes == Strips(stamped)
    {
      writes := [];
      for i := 0 to |stamped|
        invariant writes == Strips(stamped)[..i]
      {
        writes := writes + [Strip(stamped[i])];
      }
    }

    /** The part of Run after stamping. */
    static method SendStamped(svc: Service, wire: Wire<Req>, stamped: seq<Write>) returns (r: Status)
      requires AllBatchable(stamped)
      modifies svc, wire
      ensures BatchTold(old(svc.table), old(wire.replies), stamped, svc.table, r)
    {
      var writes := StripAll(stamped);
      ghost var t, replies := svc.table, wire.replies;
      var all := RunChunks(svc, wire, writes);
      if all.all.outcome.Complete? {
        CompleteTold(t, replies, stamped);
        r := Ok;
      } else {
        r := Err(Failed);
      }
    }

    /** Stamping a queue without condition checks. */
    static method StampBatch(cfg: Config, queue: seq<Queued<Item>>, args: seq<Args>)
      returns (ok: bool, stamped: seq<Write>)
      requires |queue| <= |args| && Deletes(queue) && AllPutable(cfg, Memory(Pointers(queue)))
      modifies Pointers(queue)
      ensures Stamped(Memory(Pointers(queue)), stamped, ok)
              == StampAll(cfg, old(Memory(Pointers(queue))), queue, args)
      ensures AllBatchable(stamped)
    {
      StampedBatchable(cfg, Memory(Pointers(queue)), queue, args);
      ok, stamped := StampQueue(cfg, queue, args);
    }

    /** Run on a queue that is not empty, with no error latched. */
    static method RunQueue(cfg: Config, queue: seq<Queued<Item>>, svc: Service, wire: Wire<Req>, args: seq<Args>)
      returns (r: Status, ghost s: Stamped<Item>)
      requires |queue| <= |args| && Deletes(queue) && AllPutable(cfg, Memory(Pointers(queue)))
      modifies Pointers(queue), svc, wire
      ensures s == StampAll(cfg, old(Memory(Pointers(queue))), queue, args)
      ensures Memory(Pointers(queue)) == s.mem && AllBatchable(s.writes)
      ensures if s.ok then BatchTold(old(svc.table), old(wire.replies), s.writes, svc.table, r)
              else svc.table == old(svc.table) && r == Err(Failed)
    {
      var ok, stamped := StampBatch(cfg, queue, args);
      s := Stamped(Memory(Pointers(queue)), stamped, ok);
      assert svc.table == old(svc.table) && wire.replies == old(wire.replies);
      if ok {
        r := SendStamped(svc, wire, stamped);
        assert Memory(Pointers(queue)) == s.mem;
      } else {
        r := Err(Failed);
      }
    }

    /** Run: the queued pointers are stamped in order, their conditions are dropped, and the
        requests go out in chunks. */
    method Run(cfg: Config, svc: Service, wire: Wire<Req>, args: seq<Args>) returns (r: Status)
      requires |ops| <= |args| && Deletes(ops) && AllPutable(cfg, Memory(Pointers(ops)))
      modifies Pointers(ops), svc, wire
      ensures err || ops == [] ==>
                && svc.table == old(svc.table) && Memory(Pointers(ops)) == old(Memory(Pointers(ops)))
                && r == if err then Err(Failed) else Ok
      ensures !err && ops != [] ==>
                var s := StampAll(cfg, old(Memory(Pointers(ops))), ops, args);
                && Memory(Pointers(ops)) == s.mem && AllBatchable(s.writes)
                && if s.ok then BatchTold(old(svc.table), old(wire.replies), s.writes, svc.table, r)
                   else svc.table == old(svc.table) && r == Err(Failed)
    {
      if err { return Err(Failed); }
      if ops == [] { return Ok; }
      ghost var s;
      r, s := RunQueue(cfg, ops, svc, wire, args);
    }
  }

  /** Without the condition nothing protects a record: where Put is refused the batch
      replaces the record, and its version is the caller's, not a count of writes. */
  lemma BatchPutIgnoresVersion(cfg: Config, t: Table, e: Entity, a: Args, k: Key)
    requires !IsNew(e) && SealOf(cfg, e, a).Some? && Target(SealOf(cfg, e, a).value) == Some(k)
    requires k in t && VersionOf(t[k]) != Some(e.version)
    ensures var w := SealOf(cfg, e, a).value;
            && Sent(t, w, NoFault) == (t, Refused)
            && Batchable(w) && var after := ApplyReqs(t, [Strip(w)]);
               k in after && VersionOf(after[k]) == Some(e.version + 1)
  {
    SealIs(cfg, e, a);
    StripApplied(t, SealOf(cfg, e, a).value);
  }

  lemma SealIs(cfg: Config, e: Entity, a: Args)
    requires SealOf(cfg, e, a).Some?
    ensures var w := SealOf(cfg, e, a).value;
            w.PutItem? && Guard(w) == GuardOf(e) && VersionOf(w.item) == Some(Stamp(e, a).version)
  {
    RecordHolds(cfg, e, a);
  }

  /** What a batch write costs at most: calls of at most 25 entries, six calls and 150 ms of
      sleep per started 25 entries. */
  lemma BatchWriteCost(script: seq<BatchReply<Req>>, writes: seq<Req>)
    ensures CostWithin(DrainAll(script, writes, WRITE_MAX_REQUESTS, AllGood()).all, 25, (|writes| + 24) / 25)
  {
    RunCost(script, writes, 25, AllGood<Req>());
    ChunksIsCeiling(|writes|);
  }

  // ----- BatchGet -----

  /** A queued key, with what the table will hold there when the service comes to it. Every key
      has its own moment, so the table may change in any way while the batch runs. */
  datatype Ask = Ask(key: Key, there: Option<Attrs>)

  /** The keys that hold a record; the service omits the others silently. */
  function Found(asks: seq<Ask>): seq<Ask> {
    if asks == [] then []
    else
      var n := |asks| - 1;
      Found(asks[..n]) + if asks[n].there.Some? then [asks[n]] else []
  }

  /** A record at the key, if there is one, can be read. */
  function CanRead(codec: Codec, ty: StructType): Ask -> bool {
    (ask: Ask) => ask.there.Some? ==> Unmarshalled(codec, ask.there.value, ZeroEntity(ty, NIL_ID)).ok
  }

  function ItemsAt(codec: Codec, ty: StructType, found: seq<Ask>): seq<Entity>
    requires forall a <- found :: a.there.Some?
  {
    seq(|found|, i requires 0 <= i < |found| => Unmarshalled(codec, found[i].there.value, ZeroEntity(ty, NIL_ID)).e)
  }

  lemma {:induction false} FoundIn(asks: seq<Ask>)
    ensures forall a <- Found(asks) :: a.there.Some? && a in asks
  {
    if asks == [] {
    } else {
      FoundIn(asks[..|asks| - 1]);
    }
  }

  lemma {:induction false} FoundConcat(a: seq<Ask>, b: seq<Ask>)
    ensures Found(a + b) == Found(a) + Found(b)
  {
    if b == [] {
      assert a + b == a;
    } else {
      var n := |b| - 1;
      assert (a + b)[..|a + b| - 1] == a + b[..n];
      FoundConcat(a, b[..n]);
    }
  }

  lemma {:induction false} FoundCount(asks: seq<Ask>, a: Ask)
    ensures multiset(Found(asks))[a] == if a.there.Some? then multiset(asks)[a] else 0
  {
    if asks == [] {
    } else {
      var n := |asks| - 1;
      FoundCount(asks[..n], a);
      assert asks == asks[..n] + [asks[n]];
    }
  }

  /** The queue of a run: the key of every id, and what will be there. */
  function Asks(ty: StructType, ids: seq<string>, there: seq<Option<Attrs>>): seq<Ask>
    requires DefaultKey(ty) && |there| == |ids|
  {
    seq(|ids|, i requires 0 <= i < |ids| => Ask(IdKey(ty, ids[i]), there[i]))
  }

  predicate DistinctAsks(asks: seq<Ask>) {
    forall i, j | 0 <= i < j < |asks| :: asks[i].key != asks[j].key
  }

  lemma AsksDistinct(ty: StructType, ids: seq<string>, there: seq<Option<Attrs>>)
    requires DefaultKey(ty) && |there| == |ids| && forall i, j | 0 <= i < j < |ids| :: ids[i] != ids[j]
    ensures DistinctAsks(Asks(ty, ids, there))
  {
    forall i, j | 0 <= i < j < |ids| ensures IdKey(ty, ids[i]) != IdKey(ty, ids[j]) {
      AddressingById(ZeroEntity(ty, ids[i]));
      AddressingById(ZeroEntity(ty, ids[j]));
      assert (ty.name + "#" + ids[i])[|ty.name| + 1..] == ids[i];
      assert (ty.name + "#" + ids[j])[|ty.name| + 1..] == ids[j];
    }
  }

  /** For every sequence of unprocessed-key subsets and whatever the table holds when each key
      is read: a run over distinct ids that succeeds has fetched exactly once every queued key
      that held a record when it was read, with that record, and nothing else. */
  lemma BatchGetExactly(codec: Codec, ty: StructType, script: seq<BatchReply<Ask>>, ids: seq<string>,
                        there: seq<Option<Attrs>>)
    requires DefaultKey(ty) && |there| == |ids| && forall i, j | 0 <= i < j < |ids| :: ids[i] != ids[j]
    requires DrainAll(script, Asks(ty, ids, there), GET_MAX_KEYS, CanRead(codec, ty)).all.outcome.Complete?
    ensures var queue := Asks(ty, ids, there);
            var got := Found(DrainAll(script, queue, GET_MAX_KEYS, CanRead(codec, ty)).all.processed);
            && DistinctAsks(queue)
            && (forall a :: multiset(got)[a] == if a in queue && a.there.Some? then 1 else 0)
            && (forall a <- got :: a.there.Some? && Unmarshalled(codec, a.there.value, ZeroEntity(ty, NIL_ID)).ok)
  {
    var queue := Asks(ty, ids, there);
    RunComplete(script, queue, GET_MAX_KEYS, CanRead(codec, ty));
    var processed := DrainAll(script, queue, GET_MAX_KEYS, CanRead(codec, ty)).all.processed;
    AsksDistinct(ty, ids, there);
    forall a ensures multiset(Found(processed))[a] == if a in queue && a.there.Some? then 1 else 0 {
      FoundCount(processed, a);
      DistinctOnce(queue, a);
    }
    FoundIn(processed);
    forall a <- Found(processed) ensures Unmarshalled(codec, a.there.value, ZeroEntity(ty, NIL_ID)).ok {
      assert CanRead(codec, ty)(a);
    }
  }

  /** What a table that does not change holds at the keys of the ids. */
  function StillThere(t: Table, ty: StructType, ids: seq<string>): (there: seq<Option<Attrs>>)
    requires DefaultKey(ty)
    ensures |there| == |ids|
  {
    seq(|ids|, i requires 0 <= i < |ids| => Lookup(t, IdKey(ty, ids[i])))
  }

  lemma StillAsks(t: Table, ty: StructType, ids: seq<string>)
    requires DefaultKey(ty)
    ensures forall a <- Asks(ty, ids, StillThere(t, ty, ids)) :: a.there == Lookup(t, a.key)
  {}

  /** On a table that does not change the run fetches exactly the stored queued records. */
  lemma BatchGetStill(codec: Codec, ty: StructType, t: Table, script: seq<BatchReply<Ask>>, ids: seq<string>)
    requires DefaultKey(ty) && forall i, j | 0 <= i < j < |ids| :: ids[i] != ids[j]
    requires var queue := Asks(ty, ids, StillThere(t, ty, ids));
             DrainAll(script, queue, GET_MAX_KEYS, CanRead(codec, ty)).all.outcome.Complete?
    ensures var queue := Asks(ty, ids, StillThere(t, ty, ids));
            var got := Found(DrainAll(script, queue, GET_MAX_KEYS, CanRead(codec, ty)).all.processed);
            && (forall a <- queue :: multiset(got)[a] == if a.key in t then 1 else 0)
            && (forall a <- got :: a in queue && a.key in t && a.there == Some(t[a.key]))
  {
    var queue := Asks(ty, ids, StillThere(t, ty, ids));
    BatchGetExactly(codec, ty, script, ids, StillThere(t, ty, ids));
    StillAsks(t, ty, ids);
    var got := Found(DrainAll(script, queue, GET_MAX_KEYS, CanRead(codec, ty)).all.processed);
    forall a <- got ensures a in queue && a.key in t && a.there == Some(t[a.key]) {
      assert multiset(got)[a] > 0;
    }
  }

  /** What a batch get costs at most: calls of at most 100 keys, six calls and 150 ms of sleep
      per started 100 keys. */
  lemma BatchGetCost(script: seq<BatchReply<Ask>>, keys: seq<Ask>, good: Ask -> bool)
    ensures CostWithin(DrainAll(script, keys, GET_MAX_KEYS, good).all, 100, (|keys| + 99) / 100)
  {
    RunCost(script, keys, 100, good);
    ChunksIsCeiling(|keys|);
  }

  /** The entities behind the processed keys, in order. */
  function Fetched(codec: Codec, ty: StructType, processed: seq<Ask>): seq<Entity> {
    FoundIn(processed);
    ItemsAt(codec, ty, Found(processed))
  }

  lemma ItemsConcat(codec: Codec, ty: StructType, a: seq<Ask>, b: seq<Ask>)
    requires (forall x <- a :: x.there.Some?) && (forall x <- b :: x.there.Some?) && forall x <- a + b :: x.there.Some?
    ensures ItemsAt(codec, ty, a + b) == ItemsAt(codec, ty, a) + ItemsAt(codec, ty, b)
  {}

  lemma FetchedConcat(codec: Codec, ty: StructType, a: seq<Ask>, b: seq<Ask>)
    ensures Fetched(codec, ty, a + b) == Fetched(codec, ty, a) + Fetched(codec, ty, b)
  {
    FoundIn(a);
    FoundIn(b);
    FoundIn(a + b);
    FoundConcat(a, b);
    ItemsConcat(codec, ty, Found(a), Found(b));
  }

  class BatchGetBuilder {
    const t: StructType
    var ids: seq<string>

    constructor (t: StructType)
      ensures this.t == t && ids == []
    {
      this.t, ids := t, [];
    }

    method IDs(more: seq<string>)
      modifies this
      ensures ids == old(ids) + more
    {
      ids := ids + more;
    }

    /** Unmarshalling the records of a response into fresh values. */
    static method Unmarshal(cfg: Config, ty: StructType, processed: seq<Ask>) returns (items: seq<Entity>)
      requires forall k <- processed :: CanRead(cfg.codec, ty)(k)
      ensures items == Fetched(cfg.codec, ty, processed)
    {
      items := [];
      for i := 0 to |processed|
        invariant items == Fetched(cfg.codec, ty, processed[..i])
      {
        assert processed[..i + 1][..i] == processed[..i];
        var there := processed[i].there;
        if there.Some? {
          var item := new Item(ZeroEntity(ty, NIL_ID));
          var ok := UnmarshalItemInto(cfg.codec, there.value, item);
          items := items + [item.View()];
        }
      }
      assert processed[..|processed|] == processed;
    }

    static method RunChunk(cfg: Config, ty: StructType, wire: Wire<Ask>, keys: seq<Ask>)
      returns (d: Drained<Ask>, items: seq<Entity>)
      modifies wire
      ensures d == Drain(old(wire.replies), keys, 0, CanRead(cfg.codec, ty)) && wire.replies == d.script
      ensures items == if d.outcome.Complete? then Fetched(cfg.codec, ty, d.processed) else []
    {
      DrainKeeps(wire.replies, keys, 0, CanRead(cfg.codec, ty));
      d := wire.SendAll(keys, CanRead(cfg.codec, ty));
      items := [];
      if d.outcome.Complete? { items := Unmarshal(cfg, ty, d.processed); }
    }

    static method NextChunk(cfg: Config, ty: StructType, wire: Wire<Ask>, keys: seq<Ask>, start: nat,
                            acc: Drained<Ask>, items: seq<Entity>)
      returns (acc': Drained<Ask>, items': seq<Entity>, next: nat)
      requires start < |keys| && items == Fetched(cfg.codec, ty, acc.processed)
      modifies wire
      ensures start < next <= |keys| && acc'.script == wire.replies
      ensures items' == if acc'.outcome.Complete? then Fetched(cfg.codec, ty, acc'.processed) else []
      ensures old(Extend(acc, DrainAll(wire.replies, keys[start..], GET_MAX_KEYS, CanRead(cfg.codec, ty)), start))
              == if acc'.outcome.Complete?
                 then Extend(acc', DrainAll(wire.replies, keys[next..], GET_MAX_KEYS, CanRead(cfg.codec, ty)), next)
                 else Ran(acc', start)
    {
      ghost var from := wire.replies;
      var n := First(|keys| - start, GET_MAX_KEYS);
      var d, more := RunChunk(cfg, ty, wire, keys[start..start + n]);
      ChunkStep(acc, from, keys, start, GET_MAX_KEYS, CanRead(cfg.codec, ty), n, d);
      FetchedConcat(cfg.codec, ty, acc.processed, d.processed);
      acc', next := Plus(acc, d), start + n;
      items' := if d.outcome.Complete? then items + more else [];
    }

    static method RunChunks(cfg: Config, ty: StructType, wire: Wire<Ask>, keys: seq<Ask>)
      returns (r: Ran<Ask>, items: seq<Entity>)
      modifies wire
      ensures r == DrainAll(old(wire.replies), keys, GET_MAX_KEYS, CanRead(cfg.codec, ty))
      ensures items == if r.all.outcome.Complete? then Fetched(cfg.codec, ty, r.all.processed) else []
    {
      var start: nat := 0;
      var acc := Drained([], Complete, wire.replies, [], 0);
      items := [];
      assert keys[0..] == keys;
      while start < |keys|
        invariant start <= |keys| && acc.outcome.Complete? && acc.script == wire.replies
        invariant Extend(acc, DrainAll(wire.replies, keys[start..], GET_MAX_KEYS, CanRead(cfg.codec, ty)), start)
                  == DrainAll(old(wire.replies), keys, GET_MAX_KEYS, CanRead(cfg.codec, ty))
        invariant items == Fetched(cfg.codec, ty, acc.processed)
      {
        var next;
        acc, items, next := NextChunk(cfg, ty, wire, keys, start, acc, items);
        if !acc.outcome.Complete? { return Ran(acc, start), []; }
        start := next;
      }
      r := Ran(acc, start);
    }

    static method KeysFor(ty: StructType, ids: seq<string>, there: seq<Option<Attrs>>) returns (keys: seq<Ask>)
      requires DefaultKey(ty) && |there| == |ids|
      ensures keys == Asks(ty, ids, there)
    {
      keys := [];
      for i := 0 to |ids|
        invariant keys == Asks(ty, ids, there)[..i]
      {
        keys := keys + [Ask(IdKey(ty, ids[i]), there[i])];
      }
    }

    /** Run; there is what the table will hold at each key when the service reads it. */
    method Run(cfg: Config, there: seq<Option<Attrs>>, wire: Wire<Ask>) returns (r: Status, items: seq<Entity>)
      requires |there| == |ids|
      modifies wire
      ensures !DefaultKey(t) ==> r == Err(NonDefaultKey) && items == [] && wire.replies == old(wire.replies)
      ensures DefaultKey(t) ==>
                var all := DrainAll(old(wire.replies), Asks(t, ids, there), GET_MAX_KEYS, CanRead(cfg.codec, t)).all;
                if all.outcome.Complete? then
                  var found := Found(all.processed);
                  && r == Ok && multiset(all.processed) == multiset(Asks(t, ids, there)) && |items| == |found|
                  && forall i | 0 <= i < |found| ::
                       && found[i].there.Some?
                       && items[i] == Unmarshalled(cfg.codec, found[i].there.value, ZeroEntity(t, NIL_ID)).e
                else r == Err(Failed) && items == []
    {
      if !DefaultKey(t) { return Err(NonDefaultKey), []; }
      if ids == [] { return Ok, []; }
      var keys := KeysFor(t, ids, there);
      ghost var replies := wire.replies;
      var all;
      all, items := RunChunks(cfg, t, wire, keys);
      r := if all.all.outcome.Complete? then Ok else Err(Failed);
      if all.all.outcome.Complete? {
        RunComplete(replies, keys, GET_MAX_KEYS, CanRead(cfg.codec, t));
        FoundIn(all.all.processed);
      }
    }
  }
}
