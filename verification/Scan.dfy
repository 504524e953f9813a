/** Scans of the base table: one segment page by page, or all segments in parallel. */
module Scan {
  import opened Text
  import opened Store
  import opened Tags
  import opened Model
  import opened Compress
  import opened Crud
  import opened Paging
  import opened Sequences
  import Query

  const MAX_INT32 := 2147483647

  // ----- The request -----

  /** The part of a ScanInput that varies; segment holds Segment and TotalSegments. */
  datatype ScanInput = ScanInput(filter: Option<Cond>, limit: Option<int>, segment: Option<(int, int)>)

  function FilterOf(filters: seq<Query.FilterCondition>): Option<Cond> {
    if filters == [] then None else Some(Query.Conjunction(filters))
  }

  function InputOf(filters: seq<Query.FilterCondition>, limit: Option<int>, totalSegments: int,
                   segment: int): Option<ScanInput> {
    if exists f <- filters :: f.field == "" then None
    else if totalSegments > MAX_INT32 then None
    else Some(ScanInput(FilterOf(filters), limit,
                        if totalSegments > 1 then Some((segment, totalSegments)) else None))
  }

  /** How the service spreads keys over segments, for each number of segments. */
  type Spread = (Key, int) -> int

  ghost predicate Partitions(spread: Spread) {
    forall k, n | n >= 1 :: 0 <= spread(k, n) < n
  }

  /** The records a scan ranges over: all of them, or those of one segment. */
  function Among(spread: Spread, segment: Option<(int, int)>): (Key, Attrs) -> bool {
    (k, av) => segment.None? || spread(k, segment.value.1) == segment.value.0
  }

  /** What scanSegment returns, given what the table will be and how the service pages. */
  function SegmentRows(codec: Codec, ty: StructType, spread: Spread, order: (Key, Key) -> bool,
                       input: Option<ScanInput>, script: seq<Moment<Key>>): Option<seq<Row<Key>>> {
    if input.None? then None
    else
      ListFrom(Query.RequestOf(codec, ty, input.value.filter, input.value.limit, order),
               NarrowAll(Among(spread, input.value.segment), script), None).rows
  }

  class ScanBuilder {
    const t: StructType
    var filters: seq<Query.FilterCondition>
    var limit: Option<int>
    var totalSegments: int

    constructor (t: StructType)
      ensures this.t == t && filters == [] && limit == None && totalSegments == 0
    {
      this.t, filters, limit, totalSegments := t, [], None, 0;
    }

    method AddFilter(op: Query.FilterOp, field: string, value: Value)
      modifies this`filters
      ensures filters == old(filters) + [Query.FilterCondition(op, AttrName(Layout(t), field), value)]
    {
      var attr := ResolveAttrName(t, field);
      filters := filters + [Query.FilterCondition(op, attr, value)];
    }

    method Limit(n: int)
      modifies this`limit
      ensures limit == Some(n)
    {
      limit := Some(n);
    }

    method Parallel(n: int)
      modifies this`totalSegments
      ensures totalSegments == n
    {
      totalSegments := n;
    }

    method BuildInput(segment: int) returns (input: Option<ScanInput>)
      ensures input == InputOf(filters, limit, totalSegments, segment)
    {
      var filter := None;
      if filters != [] {
        for i := 0 to |filters|
          invariant forall j | 0 <= j < i :: filters[j].field != ""
        {
          if filters[i].field == "" { return None; }
        }
        var cond := Query.FilterExpression(filters);
        filter := Some(cond);
      }
      if totalSegments > 1 {
        if totalSegments > MAX_INT32 { return None; }
        return Some(ScanInput(filter, limit, Some((segment, totalSegments))));
      }
      input := Some(ScanInput(filter, limit, None));
    }

    /** scanSegment; All without Parallel is scanSegment of segment 0. */
    method ScanSegment(cfg: Config, wire: PageWire<Key>, spread: Spread, order: (Key, Key) -> bool, segment: int)
      returns (rows: Option<seq<Row<Key>>>, items: seq<Entity>)
      requires wire as object != this as object
      modifies wire
      ensures rows == SegmentRows(cfg.codec, t, spread, order, InputOf(filters, limit, totalSegments, segment),
                                  old(wire.script))
      ensures items == if rows.None? then [] else Query.EntitiesOf(cfg.codec, t, rows.value)
    {
      items := [];
      var input := BuildInput(segment);
      if input.None? { return None, []; }
      rows := wire.ListAll(Query.RequestOf(cfg.codec, t, input.value.filter, input.value.limit, order),
                           Among(spread, input.value.segment));
      if rows.Some? { items := Query.Unmarshal(cfg, t, rows.value); }
    }
  }

  // ----- allParallel -----

  /** What stays fixed while the goroutines run: how many there are, the scan each of them
      makes (None if the input cannot be built), and for each of them what the table will be
      and how the service will page, call by call. */
  datatype Job =
    Job(n: nat, built: bool, q: Paging.Request<Key>, among: nat -> (Key, Attrs) -> bool, scripts: seq<seq<Moment<Key>>>)

  /** One goroutine. Between taking and releasing the mutex it reads the shared variables and
      writes them back; wg.Done comes after the release. */
  datatype Worker =
    | Scanning(rows: seq<Row<Key>>, start: Option<Key>, ahead: seq<Moment<Key>>)
    | Scanned(result: Option<seq<Row<Key>>>)
    | Locked(result: Option<seq<Row<Key>>>)
    | Loaded(result: Option<seq<Row<Key>>>, items: seq<Row<Key>>, firstErr: Option<nat>)
    | Stored
    | Released
    | Finished

  /** The shared variables; firstErr holds the segment whose error it is. */
  datatype State = State(workers: seq<Worker>, mu: Option<nat>, items: seq<Row<Key>>, firstErr: Option<nat>, wg: int)

  /** A step of one goroutine; a step that is not enabled does nothing. */
  datatype Step = Call(i: nat) | Lock(i: nat) | Load(i: nat) | Store(i: nat) | Unlock(i: nat) | WgDone(i: nat)

  predicate ValidJob(j: Job) {
    |j.scripts| == j.n
  }

  function Init(j: Job): State
    requires ValidJob(j)
  {
    State(seq(j.n, i requires 0 <= i < j.n => Scanning([], None, j.scripts[i])), None, [], None, j.n)
  }

  function SetWorker(s: State, i: nat, w: Worker): State
    requires i < |s.workers|
  {
    s.(workers := s.workers[i := w])
  }

  /** One Scan call of a segment. */
  function CallStep(j: Job, i: nat, w: Worker): Worker
    requires w.Scanning?
  {
    if !j.built || w.ahead == [] then Scanned(None)
    else
      var page := FetchPage(j.q, Narrow(j.among(i), w.ahead[0]), w.start);
      if page.None? then Scanned(None)
      else if page.value.last.None? then Scanned(Some(w.rows + page.value.rows))
      else Scanning(w.rows + page.value.rows, page.value.last, w.ahead[1..])
  }

  function Next(j: Job, s: State, a: Step): State {
    if a.i >= |s.workers| then s
    else
      var w := s.workers[a.i];
      match a
      case Call(i) => if w.Scanning? then SetWorker(s, i, CallStep(j, i, w)) else s
      case Lock(i) => if w.Scanned? && s.mu.None? then SetWorker(s, i, Locked(w.result)).(mu := Some(i)) else s
      case Load(i) => if w.Locked? then SetWorker(s, i, Loaded(w.result, s.items, s.firstErr)) else s
      case Store(i) =>
        if !w.Loaded? then s
        else if w.result.None? then
          SetWorker(s, i, Stored).(firstErr := if w.firstErr.None? then Some(i) else w.firstErr)
        else SetWorker(s, i, Stored).(items := w.items + w.result.value)
      case Unlock(i) => if w.Stored? then SetWorker(s, i, Released).(mu := None) else s
      case WgDone(i) => if w.Released? then SetWorker(s, i, Finished).(wg := s.wg - 1) else s
  }

  function Run(j: Job, steps: seq<Step>): State
    requires ValidJob(j)
  {
    if steps == [] then Init(j)
    else Next(j, Run(j, steps[..|steps| - 1]), steps[|steps| - 1])
  }

  /** wg.Wait has returned. */
  predicate Returned(s: State) {
    s.wg == 0
  }

  /** allParallel's result once it returns. */
  function Outcome(s: State): Option<seq<Row<Key>>> {
    if s.firstErr.Some? then None else Some(s.items)
  }

  // ----- The invariant -----

  /** What segment i returns. */
  function ResultOf(j: Job, i: nat): Option<seq<Row<Key>>>
    requires ValidJob(j) && i < j.n
  {
    if j.built then ListFrom(j.q, NarrowAll(j.among(i), j.scripts[i]), None).rows else None
  }

  predicate Wrote(w: Worker) {
    w.Stored? || w.Released? || w.Finished?
  }

  predicate HoldsMutex(w: Worker) {
    w.Locked? || w.Loaded? || w.Stored?
  }

  function RowsOf(r: Option<seq<Row<Key>>>): seq<Row<Key>> {
    if r.None? then [] else r.value
  }

  /** What a goroutine has added to the shared items. */
  function Share(j: Job, w: Worker, i: nat): multiset<Row<Key>>
    requires ValidJob(j) && i < j.n
  {
    if Wrote(w) then multiset(RowsOf(ResultOf(j, i))) else multiset{}
  }

  function Sum<T>(ms: seq<multiset<T>>): multiset<T> {
    if ms == [] then multiset{} else Sum(ms[..|ms| - 1]) + ms[|ms| - 1]
  }

  function Shares(j: Job, ws: seq<Worker>): seq<multiset<Row<Key>>>
    requires ValidJob(j) && |ws| == j.n
  {
    seq(j.n, i requires 0 <= i < j.n => Share(j, ws[i], i))
  }

  /** How many of the first k goroutines have not called wg.Done. */
  function Running(ws: seq<Worker>, k: nat): nat
    requires k <= |ws|
  {
    if k == 0 then 0 else Running(ws, k - 1) + if ws[k - 1].Finished? then 0 else 1
  }

  predicate WorkerOk(j: Job, s: State, i: nat)
    requires ValidJob(j) && i < j.n && |s.workers| == j.n
  {
    var w := s.workers[i];
    && (HoldsMutex(w) <==> s.mu == Some(i))
    && match w
       case Scanning(rows, start, ahead) =>
         j.built ==> Ahead(rows, ListFrom(j.q, NarrowAll(j.among(i), ahead), start)).rows == ResultOf(j, i)
       case Scanned(r) => r == ResultOf(j, i)
       case Locked(r) => r == ResultOf(j, i)
       case Loaded(r, items, firstErr) => r == ResultOf(j, i) && items == s.items && firstErr == s.firstErr
       case _ => true
  }

  ghost predicate Inv(j: Job, s: State) {
    && ValidJob(j) && |s.workers| == j.n
    && (forall i | 0 <= i < j.n :: WorkerOk(j, s, i))
    && (s.mu.Some? ==> s.mu.value < j.n)
    && s.wg == Running(s.workers, j.n)
    && multiset(s.items) == Sum(Shares(j, s.workers))
    && (s.firstErr.Some? ==> s.firstErr.value < j.n && ResultOf(j, s.firstErr.value).None?)
    && (forall i | 0 <= i < j.n && Wrote(s.workers[i]) && ResultOf(j, i).None? :: s.firstErr.Some?)
  }

  lemma {:induction false} SumUpdate<T>(ms: seq<multiset<T>>, i: nat, more: multiset<T>)
    requires i < |ms|
    ensures Sum(ms[i := ms[i] + more]) == Sum(ms) + more
  {
    var n := |ms| - 1;
    var ns := ms[i := ms[i] + more];
    if i == n {
      assert ns[..n] == ms[..n];
    } else {
      assert ns[..n] == ms[..n][i := ms[..n][i] + more];
      SumUpdate(ms[..n], i, more);
    }
  }

  lemma SharesUpdate(j: Job, ws: seq<Worker>, i: nat, w: Worker, more: multiset<Row<Key>>)
    requires ValidJob(j) && |ws| == j.n && i < j.n
    requires Share(j, w, i) == Share(j, ws[i], i) + more
    ensures Sum(Shares(j, ws[i := w])) == Sum(Shares(j, ws)) + more
  {
    assert Shares(j, ws[i := w]) == Shares(j, ws)[i := Shares(j, ws)[i] + more];
    SumUpdate(Shares(j, ws), i, more);
  }

  lemma {:induction false} RunningUpdate(ws: seq<Worker>, i: nat, w: Worker, k: nat)
    requires i < |ws| && k <= |ws| && !ws[i].Finished?
    ensures Running(ws[i := w], k) == Running(ws, k) - if i < k && w.Finished? then 1 else 0
  {
    if k > 0 { RunningUpdate(ws, i, w, k - 1); }
  }

  /** A step that changes no shared variable and neither writes nor finishes. */
  lemma QuietOk(j: Job, s: State, i: nat, w: Worker, mu: Option<nat>)
    requires Inv(j, s) && i < j.n && !s.workers[i].Finished? && !w.Finished? && Wrote(w) == Wrote(s.workers[i])
    requires mu == s.mu || (s.mu.None? && mu == Some(i)) || (s.mu == Some(i) && mu.None?)
    requires WorkerOk(j, SetWorker(s, i, w).(mu := mu), i)
    ensures Inv(j, SetWorker(s, i, w).(mu := mu))
  {
    SharesUpdate(j, s.workers, i, w, multiset{});
    RunningUpdate(s.workers, i, w, j.n);
    var s' := SetWorker(s, i, w).(mu := mu);
    forall m | 0 <= m < j.n ensures WorkerOk(j, s', m) {
      if m != i { assert WorkerOk(j, s, m) && s'.workers[m] == s.workers[m]; }
    }
  }

  lemma CallOk(j: Job, s: State, i: nat)
    requires Inv(j, s)
    ensures Inv(j, Next(j, s, Call(i)))
  {
    if i < j.n && s.workers[i].Scanning? {
      var w := s.workers[i];
      assert WorkerOk(j, s, i);
      CallResult(j, i, w);
      QuietOk(j, s, i, CallStep(j, i, w), s.mu);
    }
  }

  /** One call keeps what the segment will return. */
  lemma CallResult(j: Job, i: nat, w: Worker)
    requires ValidJob(j) && i < j.n && w.Scanning?
    requires j.built ==> Ahead(w.rows, ListFrom(j.q, NarrowAll(j.among(i), w.ahead), w.start)).rows == ResultOf(j, i)
    ensures match CallStep(j, i, w)
            case Scanning(rows, start, ahead) =>
              j.built ==> Ahead(rows, ListFrom(j.q, NarrowAll(j.among(i), ahead), start)).rows == ResultOf(j, i)
            case Scanned(r) => r == ResultOf(j, i)
            case _ => false
  {
    if j.built {
      ListStep(j.q, j.among(i), w.ahead, w.start);
      if w.ahead != [] {
        var page := FetchPage(j.q, Narrow(j.among(i), w.ahead[0]), w.start);
        if page.Some? && page.value.last.Some? {
          AheadAhead(w.rows, page.value.rows, ListFrom(j.q, NarrowAll(j.among(i), w.ahead[1..]), page.value.last));
        }
      }
    }
  }

  lemma LockOk(j: Job, s: State, i: nat)
    requires Inv(j, s)
    ensures Inv(j, Next(j, s, Lock(i)))
  {
    if i < j.n && s.workers[i].Scanned? && s.mu.None? {
      assert WorkerOk(j, s, i);
      QuietOk(j, s, i, Locked(s.workers[i].result), Some(i));
    }
  }

  lemma LoadOk(j: Job, s: State, i: nat)
    requires Inv(j, s)
    ensures Inv(j, Next(j, s, Load(i)))
  {
    if i < j.n && s.workers[i].Locked? {
      assert WorkerOk(j, s, i);
      QuietOk(j, s, i, Loaded(s.workers[i].result, s.items, s.firstErr), s.mu);
    }
  }

  lemma UnlockOk(j: Job, s: State, i: nat)
    requires Inv(j, s)
    ensures Inv(j, Next(j, s, Unlock(i)))
  {
    if i < j.n && s.workers[i].Stored? {
      assert WorkerOk(j, s, i);
      QuietOk(j, s, i, Released, None);
    }
  }

  /** Writing back what was read and the segment's own rows adds the goroutine's share. */
  lemma StoreItems(j: Job, s: State, i: nat, result: Option<seq<Row<Key>>>)
    requires ValidJob(j) && |s.workers| == j.n && i < j.n && !Wrote(s.workers[i]) && result == ResultOf(j, i)
    requires multiset(s.items) == Sum(Shares(j, s.workers))
    ensures multiset(s.items + RowsOf(result)) == Sum(Shares(j, s.workers[i := Stored]))
  {
    SharesUpdate(j, s.workers, i, Stored, multiset(RowsOf(result)));
  }

  /** What the step leaves in the shared items. */
  lemma StoredItems(j: Job, s: State, i: nat)
    requires i < |s.workers| && s.workers[i].Loaded? && s.workers[i].items == s.items
    ensures var s' := Next(j, s, Store(i));
            && s'.items == s.items + RowsOf(s.workers[i].result)
            && s'.workers == s.workers[i := Stored] && s'.wg == s.wg
  {
    assert s.items + [] == s.items;
  }

  lemma StoreShares(j: Job, s: State, i: nat)
    requires Inv(j, s) && i < j.n && s.workers[i].Loaded?
    ensures var s' := Next(j, s, Store(i));
            && |s'.workers| == j.n
            && multiset(s'.items) == Sum(Shares(j, s'.workers)) && s'.wg == Running(s'.workers, j.n)
  {
    assert WorkerOk(j, s, i);
    StoredItems(j, s, i);
    StoreItems(j, s, i, s.workers[i].result);
    RunningUpdate(s.workers, i, Stored, j.n);
  }

  lemma StoreOthers(j: Job, s: State, i: nat)
    requires Inv(j, s) && i < j.n && s.workers[i].Loaded?
    ensures forall m | 0 <= m < j.n :: WorkerOk(j, Next(j, s, Store(i)), m)
  {
    assert WorkerOk(j, s, i);
    var s' := Next(j, s, Store(i));
    forall m | 0 <= m < j.n ensures WorkerOk(j, s', m) {
      if m != i { assert WorkerOk(j, s, m) && s'.workers[m] == s.workers[m]; }
    }
  }

  /** Writing back under the mutex: no other goroutine can have changed what was read. */
  lemma StoreOk(j: Job, s: State, i: nat)
    requires Inv(j, s)
    ensures Inv(j, Next(j, s, Store(i)))
  {
    if i < j.n && s.workers[i].Loaded? {
      StoreShares(j, s, i);
      StoreOthers(j, s, i);
      assert WorkerOk(j, s, i);
    }
  }

  lemma DoneShares(j: Job, s: State, i: nat)
    requires Inv(j, s) && i < j.n && s.workers[i].Released?
    ensures var s' := Next(j, s, WgDone(i));
            && |s'.workers| == j.n
            && multiset(s'.items) == Sum(Shares(j, s'.workers)) && s'.wg == Running(s'.workers, j.n)
  {
    SharesUpdate(j, s.workers, i, Finished, multiset{});
    RunningUpdate(s.workers, i, Finished, j.n);
  }

  lemma DoneOthers(j: Job, s: State, i: nat)
    requires Inv(j, s) && i < j.n && s.workers[i].Released?
    ensures forall m | 0 <= m < j.n :: WorkerOk(j, Next(j, s, WgDone(i)), m)
  {
    assert WorkerOk(j, s, i);
    var s' := Next(j, s, WgDone(i));
    forall m | 0 <= m < j.n ensures WorkerOk(j, s', m) {
      if m != i { assert WorkerOk(j, s, m) && s'.workers[m] == s.workers[m]; }
    }
  }

  lemma DoneOk(j: Job, s: State, i: nat)
    requires Inv(j, s)
    ensures Inv(j, Next(j, s, WgDone(i)))
  {
    if i < j.n && s.workers[i].Released? {
      DoneShares(j, s, i);
      DoneOthers(j, s, i);
    }
  }

  lemma {:induction false} NoShares<T>(ms: seq<multiset<T>>)
    requires forall i | 0 <= i < |ms| :: ms[i] == multiset{}
    ensures Sum(ms) == multiset{}
  {
    if ms == [] {
    } else {
      NoShares(ms[..|ms| - 1]);
    }
  }

  lemma {:induction false} AllRunning(ws: seq<Worker>, k: nat)
    requires k <= |ws| && forall w <- ws :: !w.Finished?
    ensures Running(ws, k) == k
  {
    if k > 0 { AllRunning(ws, k - 1); }
  }

  lemma InitOk(j: Job)
    requires ValidJob(j)
    ensures Inv(j, Init(j))
  {
    NoShares(Shares(j, Init(j).workers));
    AllRunning(Init(j).workers, j.n);
    forall i | 0 <= i < j.n ensures WorkerOk(j, Init(j), i) {
      AheadNothing(ListFrom(j.q, NarrowAll(j.among(i), j.scripts[i]), None));
    }
  }

  lemma {:induction false} RunOk(j: Job, steps: seq<Step>)
    requires ValidJob(j)
    ensures Inv(j, Run(j, steps))
  {
    if steps == [] {
      InitOk(j);
    } else {
      var n := |steps| - 1;
      RunOk(j, steps[..n]);
      var s := Run(j, steps[..n]);
      match steps[n]
      case Call(i) => CallOk(j, s, i);
      case Lock(i) => LockOk(j, s, i);
      case Load(i) => LoadOk(j, s, i);
      case Store(i) => StoreOk(j, s, i);
      case Unlock(i) => UnlockOk(j, s, i);
      case WgDone(i) => DoneOk(j, s, i);
    }
  }

  // ----- What allParallel returns -----

  lemma {:induction false} NoneRunning(ws: seq<Worker>, k: nat, i: nat)
    requires i < k <= |ws| && Running(ws, k) == 0
    ensures ws[i].Finished?
  {
    if i < k - 1 { NoneRunning(ws, k - 1, i); }
  }

  /** The rows of every segment. */
  function SegmentsOf(j: Job): seq<multiset<Row<Key>>>
    requires ValidJob(j)
  {
    seq(j.n, i requires 0 <= i < j.n => multiset(RowsOf(ResultOf(j, i))))
  }

  /** For every interleaving: once allParallel returns every goroutine has finished; it
      returns nil items and the error of a segment that failed if there is one, and all rows
      of all segments otherwise. */
  lemma ParallelOutcome(j: Job, steps: seq<Step>)
    requires ValidJob(j) && Returned(Run(j, steps))
    ensures var s := Run(j, steps);
            && |s.workers| == j.n && (forall i | 0 <= i < j.n :: s.workers[i].Finished?)
            && (Outcome(s).None? <==> exists i | 0 <= i < j.n :: ResultOf(j, i).None?)
            && (Outcome(s).None? ==> s.firstErr.value < j.n && ResultOf(j, s.firstErr.value).None?)
            && (Outcome(s).Some? ==> multiset(Outcome(s).value) == Sum(SegmentsOf(j)))
  {
    RunOk(j, steps);
    var s := Run(j, steps);
    forall i | 0 <= i < j.n ensures s.workers[i].Finished? { NoneRunning(s.workers, j.n, i); }
    assert Shares(j, s.workers) == SegmentsOf(j);
    if s.firstErr.Some? { assert ResultOf(j, s.firstErr.value).None?; }
    if i :| 0 <= i < j.n && ResultOf(j, i).None? { assert Wrote(s.workers[i]); }
  }

  /** The mutex is never held by two goroutines. */
  lemma MutualExclusion(j: Job, steps: seq<Step>, a: nat, b: nat)
    requires ValidJob(j) && a < j.n && b < j.n
    requires var s := Run(j, steps); |s.workers| == j.n && HoldsMutex(s.workers[a]) && HoldsMutex(s.workers[b])
    ensures a == b
  {
    RunOk(j, steps);
    assert WorkerOk(j, Run(j, steps), a) && WorkerOk(j, Run(j, steps), b);
  }

  lemma {:induction false} SomeRunning(ws: seq<Worker>, k: nat) returns (i: nat)
    requires k <= |ws| && Running(ws, k) > 0
    ensures i < k && !ws[i].Finished?
  {
    if ws[k - 1].Finished? { i := SomeRunning(ws, k - 1); } else { i := k - 1; }
  }

  /** Until allParallel returns some goroutine can take a step. */
  lemma NoDeadlock(j: Job, steps: seq<Step>)
    requires ValidJob(j) && !Returned(Run(j, steps))
    ensures exists a :: Next(j, Run(j, steps), a) != Run(j, steps)
  {
    RunOk(j, steps);
    var s := Run(j, steps);
    var i := SomeRunning(s.workers, j.n);
    if s.workers[i].Scanned? && s.mu.Some? {
      i := s.mu.value;
      assert WorkerOk(j, s, i);
    }
    StepMoves(j, s, i);
    var a := StepOf(s.workers[i], i);
    assert Next(j, s, a) != s;
  }

  lemma StepMoves(j: Job, s: State, i: nat)
    requires i < |s.workers| && !s.workers[i].Finished? && (s.workers[i].Scanned? ==> s.mu.None?)
    ensures Next(j, s, StepOf(s.workers[i], i)) != s
  {
    var w := s.workers[i];
    CallMoves(j, i, w);
    assert Next(j, s, StepOf(w, i)).workers[i] != w;
  }

  /** The step a goroutine is about to take. */
  function StepOf(w: Worker, i: nat): Step {
    match w
    case Scanning(_, _, _) => Call(i)
    case Scanned(_) => Lock(i)
    case Locked(_) => Load(i)
    case Loaded(_, _, _) => Store(i)
    case Stored => Unlock(i)
    case Released => WgDone(i)
    case Finished => WgDone(i)
  }

  lemma CallMoves(j: Job, i: nat, w: Worker)
    ensures w.Scanning? ==> CallStep(j, i, w) != w
  {
    if w.Scanning? && w.ahead != [] { assert |w.ahead[1..]| != |w.ahead|; }
  }

  // ----- How long it takes -----

  /** The steps a goroutine can still take. */
  function Work(w: Worker): nat {
    match w
    case Scanning(_, _, ahead) => |ahead| + 6
    case Scanned(_) => 5
    case Locked(_) => 4
    case Loaded(_, _, _) => 3
    case Stored => 2
    case Released => 1
    case Finished => 0
  }

  function TotalWork(ws: seq<Worker>): nat {
    if ws == [] then 0 else TotalWork(ws[..|ws| - 1]) + Work(ws[|ws| - 1])
  }

  lemma {:induction false} WorkUpdate(ws: seq<Worker>, i: nat, w: Worker)
    requires i < |ws|
    ensures TotalWork(ws[i := w]) + Work(ws[i]) == TotalWork(ws) + Work(w)
  {
    var n := |ws| - 1;
    if i == n {
      assert ws[i := w][..n] == ws[..n];
    } else {
      assert ws[i := w][..n] == ws[..n][i := w];
      WorkUpdate(ws[..n], i, w);
    }
  }

  lemma CallWorks(j: Job, i: nat, w: Worker)
    requires w.Scanning?
    ensures Work(CallStep(j, i, w)) < Work(w)
  {}

  /** A step that does something leaves less to do. */
  lemma StepWorks(j: Job, s: State, a: Step)
    requires Next(j, s, a) != s
    ensures TotalWork(Next(j, s, a).workers) < TotalWork(s.workers)
  {
    var w, w' := s.workers[a.i], Next(j, s, a).workers[a.i];
    if a.Call? { CallWorks(j, a.i, w); }
    assert Next(j, s, a).workers == s.workers[a.i := w'];
    WorkUpdate(s.workers, a.i, w');
  }

  /** Every step of the run does something. */
  ghost predicate Effective(j: Job, steps: seq<Step>)
    requires ValidJob(j)
  {
    forall i | 0 <= i < |steps| :: Next(j, Run(j, steps[..i]), steps[i]) != Run(j, steps[..i])
  }

  lemma EffectiveFront(j: Job, steps: seq<Step>)
    requires ValidJob(j) && steps != [] && Effective(j, steps)
    ensures var n := |steps| - 1;
            Effective(j, steps[..n]) && Next(j, Run(j, steps[..n]), steps[n]) != Run(j, steps[..n])
  {
    var n := |steps| - 1;
    forall i | 0 <= i < n ensures Next(j, Run(j, steps[..n][..i]), steps[..n][i]) != Run(j, steps[..n][..i]) {
      assert steps[..n][..i] == steps[..i] && steps[..n][i] == steps[i];
    }
  }

  /** Runs of such steps are bounded by six steps per goroutine and one per reply, so with
      NoDeadlock every run that goes on while it can comes to its return. */
  lemma {:induction false} RunsEnd(j: Job, steps: seq<Step>)
    requires ValidJob(j) && Effective(j, steps)
    ensures |steps| + TotalWork(Run(j, steps).workers) <= TotalWork(Init(j).workers)
  {
    if steps == [] {
    } else {
      var n := |steps| - 1;
      EffectiveFront(j, steps);
      RunsEnd(j, steps[..n]);
      StepWorks(j, Run(j, steps[..n]), steps[n]);
    }
  }

  // ----- What a scan asks for -----

  /** The record passes every queued filter. */
  predicate Passes(filters: seq<Query.FilterCondition>, av: Attrs) {
    forall f <- filters :: Query.FilterHolds(f, av)
  }

  lemma KeepsPassing(codec: Codec, ty: StructType, filters: seq<Query.FilterCondition>, limit: Option<int>,
                     order: (Key, Key) -> bool)
    ensures forall av :: Query.RequestOf(codec, ty, FilterOf(filters), limit, order).keep(av) <==> Passes(filters, av)
  {
    forall av: Attrs
      ensures Query.RequestOf(codec, ty, FilterOf(filters), limit, order).keep(av) <==> Passes(filters, av)
    {
      Query.FiltersMean(filters, av);
    }
  }

  /** An input cannot be built exactly for an empty attribute name or more segments than 32 bits
      hold; it carries the limit, and the segment and their number if there are several. */
  lemma ScanBuilt(filters: seq<Query.FilterCondition>, limit: Option<int>, n: int, i: int)
    ensures InputOf(filters, limit, n, i).None? <==> n > 2147483647 || exists f <- filters :: f.field == ""
    ensures var input := InputOf(filters, limit, n, i);
            input.Some? ==>
              && input.value.limit == limit && (input.value.segment.None? <==> n <= 1)
              && (input.value.segment.Some? ==> input.value.segment.value == (i, n))
  {}

  /** A scan of a still table returns exactly the records that pass every filter, in order, for
      every page size and split. */
  lemma ScanStill(codec: Codec, ty: StructType, spread: Spread, order: (Key, Key) -> bool,
                  filters: seq<Query.FilterCondition>, limit: Option<int>, script: seq<Moment<Key>>, table: Table)
    requires StrictOrder(order) && Still(script, table)
    requires SegmentRows(codec, ty, spread, order, InputOf(filters, limit, 0, 0), script).Some?
    ensures var rows := SegmentRows(codec, ty, spread, order, InputOf(filters, limit, 0, 0), script).value;
            && Increasing(order, Positions(rows))
            && forall r :: r in rows <==> r.pos in table && r.av == table[r.pos] && Passes(filters, r.av)
  {
    RangeStill(Query.RequestOf(codec, ty, FilterOf(filters), limit, order), Among(spread, None), script, table);
    KeepsPassing(codec, ty, filters, limit, order);
    ScanBuilt(filters, limit, 0, 0);
  }

  // ----- Parallel against plain -----

  /** The job of a builder with n segments. */
  function JobOf(codec: Codec, ty: StructType, spread: Spread, order: (Key, Key) -> bool,
                 filters: seq<Query.FilterCondition>, limit: Option<int>, n: nat, scripts: seq<seq<Moment<Key>>>): Job {
    Job(n, InputOf(filters, limit, n, 0).Some?, Query.RequestOf(codec, ty, FilterOf(filters), limit, order),
        i => Among(spread, Some((i, n))), scripts)
  }

  /** Every goroutine runs scanSegment of its own segment. */
  lemma JobRunsSegments(codec: Codec, ty: StructType, spread: Spread, order: (Key, Key) -> bool,
                        filters: seq<Query.FilterCondition>, limit: Option<int>, n: nat,
                        scripts: seq<seq<Moment<Key>>>, i: nat)
    requires 1 < n == |scripts| && i < n
    ensures ResultOf(JobOf(codec, ty, spread, order, filters, limit, n, scripts), i)
            == SegmentRows(codec, ty, spread, order, InputOf(filters, limit, n, i), scripts[i])
  {}

  lemma RowOnce(lt: (Key, Key) -> bool, rows: seq<Row<Key>>, r: Row<Key>)
    requires StrictOrder(lt) && Increasing(lt, Positions(rows))
    ensures multiset(rows)[r] == if r in rows then 1 else 0
  {
    if r in rows {
      var i :| 0 <= i < |rows| && rows[i] == r;
      assert rows == rows[..i] + [r] + rows[i + 1..];
      forall m | 0 <= m < |rows| && m != i ensures rows[m] != r {
        if m < i {
          assert lt(Positions(rows)[m], Positions(rows)[i]);
        } else {
          assert lt(Positions(rows)[i], Positions(rows)[m]);
        }
      }
      assert r !in rows[..i] && r !in rows[i + 1..];
      assert multiset(rows[..i])[r] == 0 && multiset(rows[i + 1..])[r] == 0;
    }
  }

  /** The record is in the table and passes the filter. */
  predicate Listed(q: Paging.Request<Key>, table: Table, r: Row<Key>) {
    r.pos in table && r.av == table[r.pos] && q.keep(r.av)
  }

  /** On a still table a segment holds each of its own matching records once. */
  lemma SegmentCount(q: Paging.Request<Key>,
                     among: (Key, Attrs) -> bool, script: seq<Moment<Key>>, table: Table, r: Row<Key>)
    requires StrictOrder(q.lt) && Still(script, table) && ListFrom(q, NarrowAll(among, script), None).rows.Some?
    ensures multiset(ListFrom(q, NarrowAll(among, script), None).rows.value)[r]
            == if Listed(q, table, r) && among(r.pos, r.av) then 1 else 0
  {
    RangeStill(q, among, script, table);
    RowOnce(q.lt, ListFrom(q, NarrowAll(among, script), None).rows.value, r);
    assert Wanted(q, among, r.pos, r.av) <==> among(r.pos, r.av) && q.keep(r.av);
  }

  lemma {:induction false} SumCount<T>(ms: seq<multiset<T>>, r: T, at: int)
    requires forall i | 0 <= i < |ms| :: ms[i][r] == if i == at then 1 else 0
    ensures Sum(ms)[r] == if 0 <= at < |ms| then 1 else 0
  {
    if ms == [] {
    } else {
      var n := |ms| - 1;
      SumCount(ms[..n], r, at);
      assert ms[n][r] == if n == at then 1 else 0;
    }
  }

  /** Spread over all segments, a still table's matching records come up once each. */
  lemma SegmentsCount(j: Job, spread: Spread, table: Table, r: Row<Key>)
    requires ValidJob(j) && 1 < j.n && j.built && StrictOrder(j.q.lt) && Partitions(spread)
    requires forall i: nat | i < j.n :: j.among(i) == Among(spread, Some((i, j.n)))
    requires forall i | 0 <= i < j.n :: Still(j.scripts[i], table) && ResultOf(j, i).Some?
    ensures Sum(SegmentsOf(j))[r] == if Listed(j.q, table, r) then 1 else 0
  {
    var at := if Listed(j.q, table, r) then spread(r.pos, j.n) else -1;
    var ms := SegmentsOf(j);
    forall i | 0 <= i < |ms| ensures ms[i][r] == if i == at then 1 else 0 {
      SegmentCount(j.q, j.among(i), j.scripts[i], table, r);
    }
    SumCount(ms, r, at);
    assert 0 <= spread(r.pos, j.n) < j.n;
  }

  /** Parallel scan refines plain scan: over a still table spread over the segments, for every
      number of segments, page split per segment and interleaving, what allParallel returns
      without error is a permutation of what a plain scan returns. */
  lemma ParallelIsPlain(codec: Codec, ty: StructType, spread: Spread, order: (Key, Key) -> bool,
                        filters: seq<Query.FilterCondition>, limit: Option<int>, n: nat, scripts: seq<seq<Moment<Key>>>,
                        steps: seq<Step>, script: seq<Moment<Key>>, table: Table)
    requires 1 < n == |scripts| && StrictOrder(order) && Partitions(spread)
    requires (forall s <- scripts :: Still(s, table)) && Still(script, table)
    requires var s := Run(JobOf(codec, ty, spread, order, filters, limit, n, scripts), steps);
             Returned(s) && Outcome(s).Some?
    requires SegmentRows(codec, ty, spread, order, InputOf(filters, limit, 0, 0), script).Some?
    ensures multiset(Outcome(Run(JobOf(codec, ty, spread, order, filters, limit, n, scripts), steps)).value)
            == multiset(SegmentRows(codec, ty, spread, order, InputOf(filters, limit, 0, 0), script).value)
  {
    var j := JobOf(codec, ty, spread, order, filters, limit, n, scripts);
    ParallelOutcome(j, steps);
    assert ResultOf(j, 0).Some?;
    forall i | 0 <= i < n ensures Still(j.scripts[i], table) { assert scripts[i] in scripts; }
    var plain := SegmentRows(codec, ty, spread, order, InputOf(filters, limit, 0, 0), script).value;
    forall r ensures Sum(SegmentsOf(j))[r] == multiset(plain)[r] {
      SegmentsCount(j, spread, table, r);
      SegmentCount(j.q, Among(spread, None), script, table, r);
    }
    assert Sum(SegmentsOf(j)) == multiset(plain);
  }

  // ----- Parallel under interference -----

  /** Rows hold no position twice, and are those that are in the segments. */
  ghost predicate FromSegments(j: Job, rows: seq<Row<Key>>)
    requires ValidJob(j)
  {
    multiset(rows) == Sum(SegmentsOf(j)) && forall i | 0 <= i < j.n :: ResultOf(j, i).Some?
  }

  lemma {:induction false} SumMember<T>(ms: seq<multiset<T>>, x: T)
    ensures x in Sum(ms) <==> exists i | 0 <= i < |ms| :: x in ms[i]
  {
    if ms == [] {
    } else {
      var n := |ms| - 1;
      SumMember(ms[..n], x);
      assert forall i | 0 <= i < n :: ms[..n][i] == ms[i];
      if x in Sum(ms) && x !in Sum(ms[..n]) { assert x in ms[n]; }
    }
  }

  /** What one segment returns, whatever was written between its pages. */
  ghost predicate SegmentGood(j: Job, spread: Spread, i: nat, rows: seq<Row<Key>>)
    requires ValidJob(j) && i < j.n
  {
    && Increasing(j.q.lt, Positions(rows))
    && (forall r <- rows :: spread(r.pos, j.n) == i && j.q.keep(r.av) && WasThere(j.scripts[i], r))
    && (forall p | spread(p, j.n) == i && Throughout(j.q, j.scripts[i], p) :: Lists(rows, p))
  }

  lemma SegmentUnderInterference(j: Job, spread: Spread, i: nat)
    requires ValidJob(j) && 1 < j.n && StrictOrder(j.q.lt) && i < j.n && ResultOf(j, i).Some?
    requires j.among(i) == Among(spread, Some((i, j.n)))
    ensures SegmentGood(j, spread, i, ResultOf(j, i).value)
  {
    var rows := ResultOf(j, i).value;
    RangeListing(j.q, j.among(i), j.scripts[i]);
    forall r <- rows ensures spread(r.pos, j.n) == i && j.q.keep(r.av) {
      assert Wanted(j.q, j.among(i), r.pos, r.av);
    }
    forall p | spread(p, j.n) == i && Throughout(j.q, j.scripts[i], p) ensures Lists(rows, p) {
      assert forall m <- j.scripts[i] :: Wanted(j.q, j.among(i), p, m.view[p]);
      assert WantedThroughout(j.q, j.among(i), j.scripts[i], p);
      assert multiset(Positions(rows))[p] == 1;
    }
  }

  /** A returned row comes from the segment that its key belongs to. */
  lemma RowSegment(j: Job, spread: Spread, rows: seq<Row<Key>>, r: Row<Key>) returns (i: nat)
    requires ValidJob(j) && FromSegments(j, rows) && r in rows
    requires forall i: nat | i < j.n :: SegmentGood(j, spread, i, ResultOf(j, i).value)
    ensures i < j.n && i == spread(r.pos, j.n) && r in ResultOf(j, i).value
  {
    SumMember(SegmentsOf(j), r);
    assert r in multiset(rows);
    i :| 0 <= i < j.n && r in SegmentsOf(j)[i];
    assert SegmentGood(j, spread, i, ResultOf(j, i).value);
  }

  lemma OnePosition(lt: (Key, Key) -> bool, rows: seq<Row<Key>>, r: Row<Key>, r': Row<Key>)
    requires StrictOrder(lt) && Increasing(lt, Positions(rows)) && r in rows && r' in rows && r.pos == r'.pos
    ensures r == r'
  {
    var i :| 0 <= i < |rows| && rows[i] == r;
    var k :| 0 <= k < |rows| && rows[k] == r';
    if i < k {
      assert lt(Positions(rows)[i], Positions(rows)[k]);
    } else if k < i {
      assert lt(Positions(rows)[k], Positions(rows)[i]);
    }
  }

  /** No row comes up twice over all segments. */
  lemma RowOnceInAll(j: Job, spread: Spread, rows: seq<Row<Key>>, r: Row<Key>)
    requires ValidJob(j) && StrictOrder(j.q.lt) && FromSegments(j, rows) && r in rows
    requires forall i: nat | i < j.n :: SegmentGood(j, spread, i, ResultOf(j, i).value)
    ensures multiset(rows)[r] == 1
  {
    var at := RowSegment(j, spread, rows, r);
    var ms := SegmentsOf(j);
    forall i | 0 <= i < |ms| ensures ms[i][r] == if i == at then 1 else 0 {
      assert SegmentGood(j, spread, i, ResultOf(j, i).value);
      RowOnce(j.q.lt, ResultOf(j, i).value, r);
    }
    SumCount(ms, r, at);
  }

  lemma PositionsDistinct(j: Job, spread: Spread, rows: seq<Row<Key>>, a: nat, b: nat)
    requires ValidJob(j) && StrictOrder(j.q.lt) && FromSegments(j, rows) && a < b < |rows|
    requires forall i: nat | i < j.n :: SegmentGood(j, spread, i, ResultOf(j, i).value)
    ensures rows[a].pos != rows[b].pos
  {
    if rows[a].pos == rows[b].pos {
      var i := RowSegment(j, spread, rows, rows[a]);
      var k := RowSegment(j, spread, rows, rows[b]);
      OnePosition(j.q.lt, ResultOf(j, i).value, rows[a], rows[b]);
      RowOnceInAll(j, spread, rows, rows[a]);
      TwiceCounts(rows, a, b);
    }
  }

  lemma ListedByAll(j: Job, spread: Spread, rows: seq<Row<Key>>, p: Key)
    requires ValidJob(j) && FromSegments(j, rows) && 1 <= j.n && Partitions(spread)
    requires forall i: nat | i < j.n :: SegmentGood(j, spread, i, ResultOf(j, i).value)
    requires var i := spread(p, j.n); 0 <= i < j.n && Throughout(j.q, j.scripts[i], p)
    ensures Lists(rows, p)
  {
    var i := spread(p, j.n);
    var part := ResultOf(j, i).value;
    assert SegmentGood(j, spread, i, part);
    var k :| 0 <= k < |part| && Positions(part)[k] == p;
    assert part[k] in SegmentsOf(j)[i];
    SumMember(SegmentsOf(j), part[k]);
    assert part[k] in multiset(rows);
    ListsRow(rows, part[k]);
  }

  /** The rows of all segments under interference. */
  ghost predicate JobGood(q: Paging.Request<Key>, spread: Spread, n: nat, scripts: seq<seq<Moment<Key>>>,
                          rows: seq<Row<Key>>)
    requires 1 <= n == |scripts| && Partitions(spread)
  {
    && (forall p :: multiset(Positions(rows))[p] <= 1)
    && (forall r <- rows :: q.keep(r.av) && WasThere(scripts[spread(r.pos, n)], r))
    && (forall p | Throughout(q, scripts[spread(p, n)], p) :: multiset(Positions(rows))[p] == 1)
  }

  lemma JobUnderInterference(j: Job, spread: Spread, rows: seq<Row<Key>>)
    requires ValidJob(j) && 1 < j.n && StrictOrder(j.q.lt) && Partitions(spread) && FromSegments(j, rows)
    requires forall i: nat | i < j.n :: j.among(i) == Among(spread, Some((i, j.n)))
    ensures JobGood(j.q, spread, j.n, j.scripts, rows)
  {
    forall i: nat | i < j.n ensures SegmentGood(j, spread, i, ResultOf(j, i).value) {
      SegmentUnderInterference(j, spread, i);
    }
    forall a, b | 0 <= a < b < |rows| ensures Positions(rows)[a] != Positions(rows)[b] {
      PositionsDistinct(j, spread, rows, a, b);
    }
    forall p ensures multiset(Positions(rows))[p] == if Lists(rows, p) then 1 else 0 {
      DistinctOnce(Positions(rows), p);
    }
    forall r <- rows ensures j.q.keep(r.av) && WasThere(j.scripts[spread(r.pos, j.n)], r) {
      var i := RowSegment(j, spread, rows, r);
      assert SegmentGood(j, spread, i, ResultOf(j, i).value);
    }
    forall p | Throughout(j.q, j.scripts[spread(p, j.n)], p) ensures multiset(Positions(rows))[p] == 1 {
      ListedByAll(j, spread, rows, p);
    }
  }

  /** What a scan may return under interference: no key twice, only rows that were in the table
      and passed every filter when they were read, and every key whose record is there and passes
      in every view of its own segment. */
  ghost predicate ScanGood(filters: seq<Query.FilterCondition>, spread: Spread, n: nat,
                           scripts: seq<seq<Moment<Key>>>, rows: seq<Row<Key>>)
    requires 1 <= n == |scripts| && Partitions(spread)
  {
    && (forall p :: multiset(Positions(rows))[p] <= 1)
    && (forall r <- rows :: Passes(filters, r.av) && WasThere(scripts[spread(r.pos, n)], r))
    && (forall p | forall m <- scripts[spread(p, n)] :: p in m.view && Passes(filters, m.view[p]) ::
          multiset(Positions(rows))[p] == 1)
  }

  lemma GoodForFilters(q: Paging.Request<Key>, filters: seq<Query.FilterCondition>, spread: Spread, n: nat,
                       scripts: seq<seq<Moment<Key>>>, rows: seq<Row<Key>>)
    requires 1 <= n == |scripts| && Partitions(spread) && JobGood(q, spread, n, scripts, rows)
    requires forall av :: q.keep(av) <==> Passes(filters, av)
    ensures ScanGood(filters, spread, n, scripts, rows)
  {
    forall p | forall m <- scripts[spread(p, n)] :: p in m.view && Passes(filters, m.view[p])
      ensures multiset(Positions(rows))[p] == 1
    {
      assert Throughout(q, scripts[spread(p, n)], p);
    }
  }

  /** A parallel scan under interference: whatever is written between the pages of any segment,
      and whatever the interleaving, what allParallel returns without error holds no key twice,
      and exactly once every record that is there and matches throughout. */
  lemma ParallelUnderInterference(codec: Codec, ty: StructType, spread: Spread, order: (Key, Key) -> bool,
                                  filters: seq<Query.FilterCondition>, limit: Option<int>, n: nat,
                                  scripts: seq<seq<Moment<Key>>>, steps: seq<Step>)
    requires 1 < n == |scripts| && StrictOrder(order) && Partitions(spread)
    requires var s := Run(JobOf(codec, ty, spread, order, filters, limit, n, scripts), steps);
             Returned(s) && Outcome(s).Some?
    ensures var j := JobOf(codec, ty, spread, order, filters, limit, n, scripts);
            ScanGood(filters, spread, n, scripts, Outcome(Run(j, steps)).value)
  {
    var j := JobOf(codec, ty, spread, order, filters, limit, n, scripts);
    ParallelOutcome(j, steps);
    JobUnderInterference(j, spread, Outcome(Run(j, steps)).value);
    KeepsPassing(codec, ty, filters, limit, order);
    GoodForFilters(j.q, filters, spread, n, scripts, Outcome(Run(j, steps)).value);
  }

  /** More segments than fit 32 bits fail every segment, so the whole scan. */
  lemma TooManySegments(codec: Codec, ty: StructType, spread: Spread, order: (Key, Key) -> bool,
                        filters: seq<Query.FilterCondition>, limit: Option<int>, n: nat, scripts: seq<seq<Moment<Key>>>,
                        steps: seq<Step>)
    requires 2147483647 < n == |scripts|
    requires Returned(Run(JobOf(codec, ty, spread, order, filters, limit, n, scripts), steps))
    ensures Outcome(Run(JobOf(codec, ty, spread, order, filters, limit, n, scripts), steps)).None?
  {
    var j := JobOf(codec, ty, spread, order, filters, limit, n, scripts);
    ParallelOutcome(j, steps);
    assert ResultOf(j, 0).None?;
  }
}
