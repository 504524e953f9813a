/** Queued writes whose puts are stamped when the queue is run, as the batch and transaction
    builders do. */
module Stamping {
  import opened Text
  import opened Store
  import opened Model
  import opened Crud

  /** The values behind a set of pointers. */
  ghost function Memory(items: set<Item>): map<Item, Entity>
    reads items
  {
    map x | x in items :: x.View()
  }

  /** A queued put holds its pointer; other entries are built when queued. */
  datatype Queued<+P> = QueuedPut(item: P) | Ready(w: Write)

  ghost function Pointers(ops: seq<Queued<Item>>): set<Item> {
    set op <- ops | op.QueuedPut? :: op.item
  }

  ghost predicate AllPutable<P>(cfg: Config, mem: map<P, Entity>) {
    forall p <- mem :: Putable(cfg, mem[p])
  }

  datatype Stamped<!P> = Stamped(mem: map<P, Entity>, writes: seq<Write>, ok: bool)

  /** Taking over one queue entry. */
  function StampOne<P(==)>(cfg: Config, r: Stamped<P>, op: Queued<P>, a: Args): (r': Stamped<P>)
    requires op.QueuedPut? ==> op.item in r.mem
    ensures r'.mem.Keys == r.mem.Keys
  {
    match op
    case Ready(w) => r.(writes := r.writes + [w])
    case QueuedPut(p) =>
      var next := r.mem[p := Stamp(r.mem[p], a)];
      var w := SealOf(cfg, r.mem[p], a);
      if w.None? then Stamped(next, r.writes, false) else Stamped(next, r.writes + [w.value], true)
  }

  /** Stamping the queue in order: a pointer queued twice is stamped twice, and an entity
      that cannot be marshalled ends the run with everything before it stamped. */
  function StampAll<P(==)>(cfg: Config, mem: map<P, Entity>, ops: seq<Queued<P>>, args: seq<Args>): (r: Stamped<P>)
    requires |ops| <= |args| && forall op <- ops :: op.QueuedPut? ==> op.item in mem
    ensures r.mem.Keys == mem.Keys
  {
    if ops == [] then Stamped(mem, [], true)
    else
      var n := |ops| - 1;
      assert ops[n] in ops;
      var r := StampAll(cfg, mem, ops[..n], args);
      if r.ok then StampOne(cfg, r, ops[n], args[n]) else r
  }

  lemma {:induction false} StampStops<P>(cfg: Config, mem: map<P, Entity>, ops: seq<Queued<P>>, args: seq<Args>, i: nat)
    requires |ops| <= |args| && i <= |ops| && forall op <- ops :: op.QueuedPut? ==> op.item in mem
    requires !StampAll(cfg, mem, ops[..i], args).ok
    ensures StampAll(cfg, mem, ops, args) == StampAll(cfg, mem, ops[..i], args)
    decreases |ops|
  {
    if i < |ops| {
      var n := |ops| - 1;
      assert ops[..n][..i] == ops[..i];
      StampStops(cfg, mem, ops[..n], args, i);
    } else {
      assert ops[..i] == ops;
    }
  }

  lemma PutKeeps<P>(cfg: Config, mem: map<P, Entity>, p: P, a: Args)
    requires AllPutable(cfg, mem) && p in mem
    ensures AllPutable(cfg, mem[p := Stamp(mem[p], a)])
  {
    StampKeeps(cfg, mem[p], a);
  }

  lemma {:induction false} StampPutable<P>(cfg: Config, mem: map<P, Entity>, ops: seq<Queued<P>>, args: seq<Args>)
    requires |ops| <= |args| && forall op <- ops :: op.QueuedPut? ==> op.item in mem
    requires AllPutable(cfg, mem)
    ensures AllPutable(cfg, StampAll(cfg, mem, ops, args).mem)
  {
    if ops == [] {
    } else {
      var n := |ops| - 1;
      StampPutable(cfg, mem, ops[..n], args);
      assert ops[n] in ops;
      var r := StampAll(cfg, mem, ops[..n], args);
      if r.ok && ops[n].QueuedPut? { PutKeeps(cfg, r.mem, ops[n].item, args[n]); }
    }
  }

  /** The write of a queue entry that is stamped from its pointer's own first value. */
  function OwnWrite<P>(cfg: Config, mem: map<P, Entity>, op: Queued<P>, a: Args): Option<Write>
    requires op.QueuedPut? ==> op.item in mem
  {
    match op
    case QueuedPut(p) => SealOf(cfg, mem[p], a)
    case Ready(w) => Some(w)
  }

  ghost predicate StampedRight<P>(cfg: Config, mem: map<P, Entity>, ops: seq<Queued<P>>, args: seq<Args>, r: Stamped<P>)
    requires |ops| <= |args| && forall op <- ops :: op.QueuedPut? ==> op.item in mem
  {
    && r.mem.Keys == mem.Keys && |r.writes| <= |ops| && (r.ok ==> |r.writes| == |ops|)
    && (forall i | 0 <= i < |r.writes| :: Some(r.writes[i]) == OwnWrite(cfg, mem, ops[i], args[i]))
    && (forall p <- mem :: QueuedPut(p) !in ops ==> r.mem[p] == mem[p])
  }

  lemma StampedMore<P>(cfg: Config, mem: map<P, Entity>, ops: seq<Queued<P>>, op: Queued<P>, args: seq<Args>,
                       r: Stamped<P>, r': Stamped<P>, w: Option<Write>)
    requires |ops| < |args| && (forall o <- ops :: o.QueuedPut? ==> o.item in mem) && (op.QueuedPut? ==> op.item in mem)
    requires StampedRight(cfg, mem, ops, args, r) && r.ok && w == OwnWrite(cfg, mem, op, args[|ops|])
    requires r'.mem.Keys == r.mem.Keys && forall p <- mem :: op != QueuedPut(p) ==> r'.mem[p] == r.mem[p]
    requires r'.writes == r.writes + (if w.Some? then [w.value] else []) && (r'.ok <==> w.Some?)
    ensures forall o <- ops + [op] :: o.QueuedPut? ==> o.item in mem
    ensures StampedRight(cfg, mem, ops + [op], args, r')
  {
    assert forall p :: QueuedPut(p) in ops || op == QueuedPut(p) ==> QueuedPut(p) in ops + [op];
  }

  lemma StampedOne<P>(cfg: Config, mem: map<P, Entity>, ops: seq<Queued<P>>, op: Queued<P>, args: seq<Args>,
                      r: Stamped<P>)
    requires |ops| < |args| && (forall o <- ops :: o.QueuedPut? ==> o.item in mem) && (op.QueuedPut? ==> op.item in mem)
    requires StampedRight(cfg, mem, ops, args, r) && r.ok && (op.QueuedPut? ==> op !in ops)
    ensures forall o <- ops + [op] :: o.QueuedPut? ==> o.item in mem
    ensures StampedRight(cfg, mem, ops + [op], args, StampOne(cfg, r, op, args[|ops|]))
  {
    var w := OwnWrite(cfg, mem, op, args[|ops|]);
    if op.QueuedPut? { assert r.mem[op.item] == mem[op.item]; }
    StampedMore(cfg, mem, ops, op, args, r, StampOne(cfg, r, op, args[|ops|]), w);
  }

  lemma StampedStop<P>(cfg: Config, mem: map<P, Entity>, ops: seq<Queued<P>>, op: Queued<P>, args: seq<Args>,
                       r: Stamped<P>)
    requires |ops| < |args| && (forall o <- ops :: o.QueuedPut? ==> o.item in mem) && (op.QueuedPut? ==> op.item in mem)
    requires StampedRight(cfg, mem, ops, args, r) && !r.ok
    ensures forall o <- ops + [op] :: o.QueuedPut? ==> o.item in mem
    ensures StampedRight(cfg, mem, ops + [op], args, r)
  {
    assert forall p :: QueuedPut(p) in ops ==> QueuedPut(p) in ops + [op];
  }

  /** When no pointer is queued twice, every put is the one its pointer's own value gives,
      and every other entry goes out as it was queued. */
  lemma {:induction false} StampOnce<P>(cfg: Config, mem: map<P, Entity>, ops: seq<Queued<P>>, args: seq<Args>)
    requires |ops| <= |args| && forall op <- ops :: op.QueuedPut? ==> op.item in mem
    requires forall i, j | 0 <= i < j < |ops| :: ops[i].QueuedPut? ==> ops[i] != ops[j]
    ensures StampedRight(cfg, mem, ops, args, StampAll(cfg, mem, ops, args))
  {
    if ops == [] {
    } else {
      var n := |ops| - 1;
      var front, op := ops[..n], ops[n];
      assert ops == front + [op] && op in ops;
      assert forall i | 0 <= i < n :: front[i] == ops[i];
      StampOnce(cfg, mem, front, args);
      var r := StampAll(cfg, mem, front, args);
      if r.ok {
        StampedOne(cfg, mem, front, op, args, r);
      } else {
        StampedStop(cfg, mem, front, op, args, r);
      }
    }
  }

  lemma StampStep<P>(cfg: Config, mem: map<P, Entity>, ops: seq<Queued<P>>, args: seq<Args>, i: nat)
    requires i < |ops| <= |args| && forall op <- ops :: op.QueuedPut? ==> op.item in mem
    requires StampAll(cfg, mem, ops[..i], args).ok
    ensures StampAll(cfg, mem, ops[..i + 1], args)
            == StampOne(cfg, StampAll(cfg, mem, ops[..i], args), ops[i], args[i])
  {
    assert ops[..i + 1][..i] == ops[..i] && |ops[..i + 1]| - 1 == i;
  }

  /** Stamping one of several pointers leaves the others alone. */
  method StampPointer(cfg: Config, ghost items: set<Item>, item: Item, a: Args) returns (w: Option<Write>)
    requires item in items && Putable(cfg, item.View())
    modifies item
    ensures Memory(items) == old(Memory(items))[item := Stamp(old(item.View()), a)]
    ensures w == SealOf(cfg, old(item.View()), a)
  {
    var av, cond := StampAndMarshal(cfg, item, a);
    w := if av.None? then None else Some(PutItem(av.value, cond));
  }

  /** The loop that turns a queue into requests. */
  method StampQueue(cfg: Config, ops: seq<Queued<Item>>, args: seq<Args>) returns (ok: bool, writes: seq<Write>)
    requires |ops| <= |args| && AllPutable(cfg, Memory(Pointers(ops)))
    modifies Pointers(ops)
    ensures Stamped(Memory(Pointers(ops)), writes, ok) == StampAll(cfg, old(Memory(Pointers(ops))), ops, args)
  {
    ghost var ps, mem := Pointers(ops), Memory(Pointers(ops));
    writes := [];
    for i := 0 to |ops|
      invariant Stamped(Memory(ps), writes, true) == StampAll(cfg, mem, ops[..i], args)
    {
      StampStep(cfg, mem, ops, args, i);
      var op := ops[i];
      if op.QueuedPut? {
        assert op in ops && op.item in ps;
        StampPutable(cfg, mem, ops[..i], args);
        assert Memory(ps)[op.item] == op.item.View();
        var w := StampPointer(cfg, ps, op.item, args[i]);
        if w.None? {
          StampStops(cfg, mem, ops, args, i + 1);
          return false, writes;
        }
        writes := writes + [w.value];
      } else {
        writes := writes + [op.w];
      }
    }
    assert ops[..|ops|] == ops;
    ok := true;
  }
}

/** Transactional reads and writes. */
module Transact {
  import opened Text
  import opened Store
  import opened Model
  import opened Keys
  import opened Compress
  import opened Crud
  import opened Stamping

  const MAX_ITEMS := 100

  // ----- The service call -----

  /** A cancelled transaction comes with one reason code per entry. */
  datatype TxReply = TxDone | TxCancelled(codes: seq<Option<string>>) | TxError

  function CodeOf(t: Table, w: Write): Option<string> {
    if Target(w).None? then Some("ValidationError")
    else match Judge(Lookup(t, Target(w).value), w)
    case Accepted => None
    case ConditionFailed => Some("ConditionalCheckFailed")
    case Invalid => Some("ValidationError")
  }

  predicate Acceptable(ws: seq<Write>) {
    DistinctTargets(ws) && forall w <- ws :: WellFormed(w)
  }

  function TxSent(t: Table, ws: seq<Write>, f: Fault): (Table, TxReply) {
    if f == LostRequest then (t, TxError)
    else
      var after := Store.Commit(t, ws);
      if after.Some? then (after.value, if f == LostReply then TxError else TxDone)
      else if f == LostReply || !Acceptable(ws) then (t, TxError)
      else (t, TxCancelled(seq(|ws|, i requires 0 <= i < |ws| => CodeOf(t, ws[i]))))
  }

  /** cancellationReasonCodes. */
  method CancellationReasonCodes(reasons: seq<Option<string>>) returns (codes: seq<string>)
    ensures |codes| == |reasons|
    ensures forall i | 0 <= i < |codes| :: codes[i] == if reasons[i].Some? then reasons[i].value else "None"
  {
    codes := [];
    for i := 0 to |reasons|
      invariant |codes| == i
      invariant forall j | 0 <= j < i :: codes[j] == if reasons[j].Some? then reasons[j].value else "None"
    {
      codes := codes + [if reasons[i].Some? then reasons[i].value else "None"];
    }
  }

  /** translateTransactWriteErr. */
  method TranslateTransactWriteErr(reply: TxReply) returns (r: Error)
    requires reply != TxDone
    ensures r == OptimisticLock <==> reply.TxCancelled? && Some("ConditionalCheckFailed") in reply.codes
    ensures r == OptimisticLock || r == Failed
  {
    if reply.TxCancelled? {
      for i := 0 to |reply.codes|
        invariant forall j | 0 <= j < i :: reply.codes[j] != Some("ConditionalCheckFailed")
      {
        if reply.codes[i] == Some("ConditionalCheckFailed") { return OptimisticLock; }
      }
    }
    return Failed;
  }

  /** What the caller is told: a failed condition anywhere in the reasons is the lock error. */
  function TxStatus(reply: TxReply): Status {
    match reply
    case TxDone => Ok
    case TxCancelled(codes) => if Some("ConditionalCheckFailed") in codes then Err(OptimisticLock) else Err(Failed)
    case TxError => Err(Failed)
  }

  /** The guard of a write holds on the table as it stands. */
  predicate GuardHolds(t: Table, w: Write) {
    Target(w).Some? && Holds(Guard(w), ItemOf(Lookup(t, Target(w).value)))
  }

  /** The additions of a write meet numbers or nothing. */
  predicate AddsMeet(t: Table, w: Write) {
    w.UpdateItem? ==> AddsToNumbers(ItemOf(Lookup(t, w.key)), w.changes)
  }

  lemma CodeIs(t: Table, w: Write)
    requires WellFormed(w)
    ensures CodeOf(t, w) == Some("ConditionalCheckFailed") <==> !GuardHolds(t, w)
    ensures Admits(t, w) <==> GuardHolds(t, w) && AddsMeet(t, w)
  {}

  /** A transaction is refused with the lock error exactly when some guard does not hold on
      the table as it stands, succeeds exactly when all hold and all additions meet numbers,
      and writes nothing unless it succeeds. */
  lemma LockErrorIff(t: Table, ws: seq<Write>)
    requires Acceptable(ws)
    ensures var (after, reply) := TxSent(t, ws, NoFault);
            && (TxStatus(reply) == Err(OptimisticLock) <==> exists w <- ws :: !GuardHolds(t, w))
            && (TxStatus(reply) == Ok <==> forall w <- ws :: GuardHolds(t, w) && AddsMeet(t, w))
            && (TxStatus(reply) != Ok ==> after == t)
            && (TxStatus(reply) == Ok ==> (forall w <- ws :: Target(w).Some?) && after == ApplyAll(t, ws))
  {
    var reply := TxSent(t, ws, NoFault).1;
    forall w <- ws { CodeIs(t, w); }
    if w :| w in ws && !GuardHolds(t, w) {
      assert !Admits(t, w);
      var i :| 0 <= i < |ws| && ws[i] == w;
      assert reply.codes[i] == Some("ConditionalCheckFailed");
    }
    if reply.TxCancelled? && Some("ConditionalCheckFailed") in reply.codes {
      var i :| 0 <= i < |reply.codes| && reply.codes[i] == Some("ConditionalCheckFailed");
      assert ws[i] in ws && CodeOf(t, ws[i]) == Some("ConditionalCheckFailed");
    }
  }

  /** What the service rejects as malformed is not committed. */
  lemma NotAcceptable(t: Table, ws: seq<Write>)
    requires !Acceptable(ws)
    ensures Store.Commit(t, ws).None?
  {
    if w :| w in ws && !WellFormed(w) { assert !Admits(t, w); }
  }

  /** The call and what the caller is told about it: the lock error if and only if some guard
      does not hold, success if and only if all do and all additions meet numbers. */
  method SendTransaction(svc: Service, items: seq<Write>, f: Fault) returns (r: Status)
    modifies svc
    ensures svc.table == TxSent(old(svc.table), items, f).0
    ensures r == TxStatus(TxSent(old(svc.table), items, f).1)
    ensures f != NoFault ==> r == Err(Failed) && (f == LostRequest ==> svc.table == old(svc.table))
    ensures !Acceptable(items) ==> r == Err(Failed) && svc.table == old(svc.table)
    ensures Acceptable(items) && f == NoFault ==>
              && (r == Err(OptimisticLock) <==> exists w <- items :: !GuardHolds(old(svc.table), w))
              && (r == Ok <==> forall w <- items :: GuardHolds(old(svc.table), w) && AddsMeet(old(svc.table), w))
              && (r != Ok ==> svc.table == old(svc.table))
              && (r == Ok ==> (forall w <- items :: Target(w).Some?) && svc.table == ApplyAll(old(svc.table), items))
  {
    if Acceptable(items) { LockErrorIff(svc.table, items); } else { NotAcceptable(svc.table, items); }
    var (after, reply) := TxSent(svc.table, items, f);
    svc.table := after;
    if reply == TxDone { return Ok; }
    var e := TranslateTransactWriteErr(reply);
    r := Err(e);
  }

  // ----- TransactWrite -----

  /** PK and SK of a pointer. */
  method KeyFor(item: Item) returns (k: Key)
    requires Keyable(item.View())
    ensures k == EntityKey(item.View())
  {
    var pk := BuildKey(item.View(), PkFields(item.t));
    var sk := BuildKey(item.View(), SkFields(item.t));
    k := Key(pk, sk);
  }

  class TransactWriteBuilder {
    var ops: seq<Queued<Item>>
    var err: bool

    constructor ()
      ensures ops == [] && !err
    {
      ops, err := [], false;
    }

    method Put(item: Item)
      modifies this
      ensures err == old(err) && ops == if err then old(ops) else old(ops) + [QueuedPut(item)]
    {
      if err { return; }
      ops := ops + [QueuedPut(item)];
    }

    method Delete(keyItem: Item)
      requires Keyable(keyItem.View())
      modifies this
      ensures err == old(err)
      ensures ops == if err then old(ops) else old(ops) + [Ready(DeleteItem(EntityKey(keyItem.View())))]
    {
      if err { return; }
      var k := KeyFor(keyItem);
      ops := ops + [Ready(DeleteItem(k))];
    }

    /** built tells whether the expression library could build the condition; a failure
        latches, and every later call on the builder is ignored. */
    method ConditionCheck(keyItem: Item, expected: int, built: bool)
      requires Keyable(keyItem.View())
      modifies this
      ensures err == (old(err) || !built)
      ensures ops == if err then old(ops)
                     else old(ops) + [Ready(Check(EntityKey(keyItem.View()), Compare("Version", Eq, N(expected))))]
    {
      if err { return; }
      if !built {
        err := true;
        return;
      }
      var k := KeyFor(keyItem);
      ops := ops + [Ready(Check(k, Compare("Version", Eq, N(expected))))];
    }

    /** Run: nothing happens for a latched error, an empty queue or more than 100 entries;
        otherwise the queued pointers are stamped in order and one call is made. */
    method Run(cfg: Config, svc: Service, args: seq<Args>, f: Fault) returns (r: Status)
      requires |ops| <= |args|
      requires AllPutable(cfg, Memory(Pointers(ops)))
      modifies Pointers(ops), svc
      ensures if err || ops == [] || |ops| > 100 then
                && svc.table == old(svc.table) && Memory(Pointers(ops)) == old(Memory(Pointers(ops)))
                && r == if !err && ops == [] then Ok else Err(Failed)
              else
                var s := StampAll(cfg, old(Memory(Pointers(ops))), ops, args);
                && Memory(Pointers(ops)) == s.mem
                && if !s.ok then svc.table == old(svc.table) && r == Err(Failed)
                   else
                     && svc.table == TxSent(old(svc.table), s.writes, f).0
                     && (f != NoFault || !Acceptable(s.writes) ==> r == Err(Failed))
                     && (f == LostRequest || !Acceptable(s.writes) ==> svc.table == old(svc.table))
                     && (f == NoFault && Acceptable(s.writes) ==>
                           var t := old(svc.table);
                           && (r == Err(OptimisticLock) <==> exists w <- s.writes :: !GuardHolds(t, w))
                           && (r == Ok <==> forall w <- s.writes :: GuardHolds(t, w) && AddsMeet(t, w))
                           && (r != Ok ==> svc.table == t)
                           && (r == Ok ==>
                                 (forall w <- s.writes :: Target(w).Some?) && svc.table == ApplyAll(t, s.writes)))
    {
      if err { return Err(Failed); }
      if ops == [] { return Ok; }
      if |ops| > MAX_ITEMS { return Err(Failed); }
      var ok, items := StampQueue(cfg, ops, args);
      if !ok { return Err(Failed); }
      r := SendTransaction(svc, items, f);
    }
  }

  // ----- TransactGet -----

  /** How a response is read into a destination. */
  function Reader(codec: Codec): (Attrs, Entity) -> Read {
    (av, e) => Unmarshalled(codec, av, e)
  }

  /** Filling destinations in order from the responses: a missing item leaves its destination
      untouched, a short response leaves the rest, and a bad item ends the run. */
  function FillAll<P(==)>(read: (Attrs, Entity) -> Read, mem: map<P, Entity>, dsts: seq<P>,
                          found: seq<Option<Attrs>>): (r: (map<P, Entity>, bool))
    requires forall p <- dsts :: p in mem
    ensures r.0.Keys == mem.Keys
  {
    if dsts == [] then (mem, true)
    else
      var n := |dsts| - 1;
      var (m, ok) := FillAll(read, mem, dsts[..n], found);
      assert dsts[n] in dsts;
      if !ok || n >= |found| || found[n].None? || found[n].value == map[] then (m, ok)
      else
        var r := read(found[n].value, m[dsts[n]]);
        (m[dsts[n] := r.e], r.ok)
  }

  lemma {:induction false} FillStops<P>(read: (Attrs, Entity) -> Read, mem: map<P, Entity>, dsts: seq<P>,
                                        found: seq<Option<Attrs>>, i: nat)
    requires i <= |dsts| && forall p <- dsts :: p in mem
    requires !FillAll(read, mem, dsts[..i], found).1 || i >= |found|
    ensures FillAll(read, mem, dsts, found) == FillAll(read, mem, dsts[..i], found)
    decreases |dsts|
  {
    if i < |dsts| {
      var n := |dsts| - 1;
      assert dsts[..n][..i] == dsts[..i];
      FillStops(read, mem, dsts[..n], found, i);
    } else {
      assert dsts[..i] == dsts;
    }
  }

  /** The response for a destination brings an item. */
  predicate Brings(found: seq<Option<Attrs>>, i: nat) {
    i < |found| && found[i].Some? && found[i].value != map[]
  }

  /** What one destination ends up with. */
  function Filled(read: (Attrs, Entity) -> Read, e: Entity, found: seq<Option<Attrs>>, i: nat): Read {
    if Brings(found, i) then read(found[i].value, e) else Read(true, e)
  }

  lemma FillSnoc<P>(read: (Attrs, Entity) -> Read, mem: map<P, Entity>, dsts: seq<P>, p: P, found: seq<Option<Attrs>>)
    requires p in mem && p !in dsts && forall q <- dsts :: q in mem
    ensures var (m, ok) := FillAll(read, mem, dsts, found);
            FillAll(read, mem, dsts + [p], found)
            == if !ok then (m, false)
               else (m[p := Filled(read, m[p], found, |dsts|).e], Filled(read, m[p], found, |dsts|).ok)
  {
    assert (dsts + [p])[..|dsts|] == dsts;
    var (m, ok) := FillAll(read, mem, dsts, found);
    assert m == m[p := m[p]];
  }

  /** Every destination holds its own record, read into the value its pointer held, or is
      untouched if it has none; and ok tells whether all of them read. */
  ghost predicate FilledRight<P>(read: (Attrs, Entity) -> Read, mem: map<P, Entity>, dsts: seq<P>,
                                 found: seq<Option<Attrs>>, m: map<P, Entity>, ok: bool) {
    && m.Keys == mem.Keys && (forall p <- dsts :: p in mem)
    && (ok <==> forall i | 0 <= i < |dsts| :: Filled(read, mem[dsts[i]], found, i).ok)
    && (ok ==> forall i | 0 <= i < |dsts| :: m[dsts[i]] == Filled(read, mem[dsts[i]], found, i).e)
    && (forall p <- mem :: p !in dsts ==> m[p] == mem[p])
  }

  lemma FilledOne<P>(read: (Attrs, Entity) -> Read, mem: map<P, Entity>, dsts: seq<P>, p: P,
                     found: seq<Option<Attrs>>, m: map<P, Entity>, r: Read)
    requires FilledRight(read, mem, dsts, found, m, true) && p in mem && p !in dsts
    requires r == Filled(read, mem[p], found, |dsts|)
    ensures FilledRight(read, mem, dsts + [p], found, m[p := r.e], r.ok)
  {
    var all := dsts + [p];
    assert forall i | 0 <= i < |dsts| :: all[i] == dsts[i] && dsts[i] in dsts;
    assert all[|dsts|] == p;
  }

  lemma FilledNone<P>(read: (Attrs, Entity) -> Read, mem: map<P, Entity>, dsts: seq<P>, p: P,
                      found: seq<Option<Attrs>>, m: map<P, Entity>)
    requires FilledRight(read, mem, dsts, found, m, false) && p in mem
    ensures FilledRight(read, mem, dsts + [p], found, m, false)
  {
    var i :| 0 <= i < |dsts| && !Filled(read, mem[dsts[i]], found, i).ok;
    assert (dsts + [p])[i] == dsts[i];
  }

  /** Distinct destinations are filled right. */
  lemma {:induction false} FillDistinct<P>(read: (Attrs, Entity) -> Read, mem: map<P, Entity>, dsts: seq<P>,
                                           found: seq<Option<Attrs>>)
    requires (forall p <- dsts :: p in mem) && forall i, j | 0 <= i < j < |dsts| :: dsts[i] != dsts[j]
    ensures var (m, ok) := FillAll(read, mem, dsts, found);
            FilledRight(read, mem, dsts, found, m, ok)
  {
    if dsts == [] {
    } else {
      var n := |dsts| - 1;
      var front, p := dsts[..n], dsts[n];
      assert dsts == front + [p] && p !in front && p in mem;
      FillDistinct(read, mem, front, found);
      FillSnoc(read, mem, front, p, found);
      var (m, ok) := FillAll(read, mem, front, found);
      if ok {
        FilledOne(read, mem, front, p, found, m, Filled(read, mem[p], found, n));
      } else {
        FilledNone(read, mem, front, p, found, m);
      }
    }
  }

  ghost function Destinations(dsts: seq<Item>): set<Item> {
    set p <- dsts :: p
  }

  /** What a snapshot of the table holds for the first n destinations. */
  ghost function Snapshot(t: Table, mem: map<Item, Entity>, dsts: seq<Item>, n: nat): seq<Option<Attrs>>
    requires n <= |dsts| && forall p <- dsts :: p in mem && Keyable(mem[p])
  {
    seq(n, i requires 0 <= i < n => Lookup(t, EntityKey(mem[dsts[i]])))
  }

  /** Filling one of several pointers leaves the others alone. */
  method FillPointer(cfg: Config, ghost items: set<Item>, av: Attrs, dst: Item) returns (ok: bool)
    requires dst in items
    modifies dst
    ensures var read := Unmarshalled(cfg.codec, av, old(dst.View()));
            ok == read.ok && Memory(items) == old(Memory(items))[dst := read.e]
  {
    ok := UnmarshalItemInto(cfg.codec, av, dst);
  }

  /** The keys of the destinations, in order. */
  method DestinationKeys(dsts: seq<Item>) returns (keys: seq<Key>)
    requires forall p <- dsts :: Keyable(p.View())
    ensures |keys| == |dsts| && forall i | 0 <= i < |dsts| :: keys[i] == EntityKey(dsts[i].View())
  {
    keys := [];
    for i := 0 to |dsts|
      invariant |keys| == i && forall j | 0 <= j < i :: keys[j] == EntityKey(dsts[j].View())
    {
      var k := KeyFor(dsts[i]);
      keys := keys + [k];
    }
  }

  /** The service's answer: the first responses of one snapshot, in the order of the keys. */
  method Answer(t: Table, dsts: seq<Item>, short: nat) returns (responses: seq<Option<Attrs>>)
    requires forall p <- dsts :: Keyable(p.View())
    ensures responses == Snapshot(t, Memory(Destinations(dsts)), dsts, if short < |dsts| then short else |dsts|)
  {
    var keys := DestinationKeys(dsts);
    var n := if short < |dsts| then short else |dsts|;
    responses := seq(n, i requires 0 <= i < n => Lookup(t, keys[i]));
    ghost var mem := Memory(Destinations(dsts));
    assert forall i | 0 <= i < |dsts| :: dsts[i] in mem && mem[dsts[i]] == dsts[i].View();
  }

  lemma FillStep<P>(read: (Attrs, Entity) -> Read, mem: map<P, Entity>, dsts: seq<P>, found: seq<Option<Attrs>>, i: nat)
    requires i < |dsts| && forall p <- dsts :: p in mem
    requires FillAll(read, mem, dsts[..i], found).1 && i < |found|
    ensures var m := FillAll(read, mem, dsts[..i], found).0;
            && dsts[i] in m
            && FillAll(read, mem, dsts[..i + 1], found) ==
               if found[i].None? || found[i].value == map[] then (m, true)
               else
                 var r := read(found[i].value, m[dsts[i]]);
                 (m[dsts[i] := r.e], r.ok)
  {
    assert dsts[..i + 1][..i] == dsts[..i] && |dsts[..i + 1]| - 1 == i;
  }

  /** The loop that unmarshals the responses into the destinations. */
  method FillDestinations(cfg: Config, dsts: seq<Item>, responses: seq<Option<Attrs>>) returns (ok: bool)
    modifies Destinations(dsts)
    ensures var ps := Destinations(dsts);
            (Memory(ps), ok) == FillAll(Reader(cfg.codec), old(Memory(ps)), dsts, responses)
  {
    ghost var ps := Destinations(dsts);
    ghost var mem := Memory(ps);
    for i := 0 to |dsts|
      invariant forall p <- dsts :: p in mem
      invariant FillAll(Reader(cfg.codec), mem, dsts[..i], responses) == (Memory(ps), true)
    {
      if i >= |responses| {
        FillStops(Reader(cfg.codec), mem, dsts, responses, i);
        return true;
      }
      FillStep(Reader(cfg.codec), mem, dsts, responses, i);
      if responses[i].Some? && responses[i].value != map[] {
        assert dsts[i] in ps && Memory(ps)[dsts[i]] == dsts[i].View();
        ok := FillPointer(cfg, ps, responses[i].value, dsts[i]);
        if !ok {
          FillStops(Reader(cfg.codec), mem, dsts, responses, i + 1);
          return;
        }
      }
    }
    assert dsts[..|dsts|] == dsts;
    ok := true;
  }

  /** What distinct destinations hold after a snapshot read of which the first n responses came
      back. Each is filled from the record at the key it had, over the value it had; one without
      a record, or without a response, is untouched. It succeeds exactly when all records read. */
  ghost predicate GetRight(codec: Codec, t: Table, mem: map<Item, Entity>, dsts: seq<Item>, n: int,
                           after: map<Item, Entity>, ok: bool)
    requires forall p <- dsts :: p in mem && p in after && Keyable(mem[p])
  {
    && (ok <==> forall i | 0 <= i < |dsts| && i < n && HasRecord(t, EntityKey(mem[dsts[i]])) ::
                  Unmarshalled(codec, t[EntityKey(mem[dsts[i]])], mem[dsts[i]]).ok)
    && (ok ==> forall i | 0 <= i < |dsts| ::
                 after[dsts[i]] == if i < n && HasRecord(t, EntityKey(mem[dsts[i]]))
                                   then Unmarshalled(codec, t[EntityKey(mem[dsts[i]])], mem[dsts[i]]).e
                                   else mem[dsts[i]])
  }

  predicate HasRecord(t: Table, k: Key) {
    k in t && t[k] != map[]
  }

  lemma SnapshotFilled(codec: Codec, t: Table, mem: map<Item, Entity>, dsts: seq<Item>, n: nat)
    requires n <= |dsts| && forall p <- dsts :: p in mem && Keyable(mem[p])
    requires DistinctItems(dsts)
    ensures var (m, ok) := FillAll(Reader(codec), mem, dsts, Snapshot(t, mem, dsts, n));
            m.Keys == mem.Keys && GetRight(codec, t, mem, dsts, n, m, ok)
  {
    var found := Snapshot(t, mem, dsts, n);
    FillDistinct(Reader(codec), mem, dsts, found);
    var (m, ok) := FillAll(Reader(codec), mem, dsts, found);
    forall i | 0 <= i < |dsts|
      ensures var k := EntityKey(mem[dsts[i]]);
              Filled(Reader(codec), mem[dsts[i]], found, i)
              == if i < n && HasRecord(t, k) then Unmarshalled(codec, t[k], mem[dsts[i]]) else Read(true, mem[dsts[i]])
    {
      if i < n { assert found[i] == Lookup(t, EntityKey(mem[dsts[i]])); }
    }
  }

  ghost predicate DistinctItems(dsts: seq<Item>) {
    forall i, j | 0 <= i < j < |dsts| :: dsts[i] != dsts[j]
  }

  /** One snapshot, of which the first responses come back, read into the destinations. */
  method ReadSnapshot(cfg: Config, t: Table, dsts: seq<Item>, short: nat) returns (ok: bool)
    requires forall p <- dsts :: Keyable(p.View())
    modifies Destinations(dsts)
    ensures var mem := old(Memory(Destinations(dsts)));
            var n := if short < |dsts| then short else |dsts|;
            && (Memory(Destinations(dsts)), ok) == FillAll(Reader(cfg.codec), mem, dsts, Snapshot(t, mem, dsts, n))
            && (DistinctItems(dsts) ==> GetRight(cfg.codec, t, mem, dsts, n, Memory(Destinations(dsts)), ok))
  {
    ghost var mem := Memory(Destinations(dsts));
    if DistinctItems(dsts) {
      SnapshotFilled(cfg.codec, t, mem, dsts, if short < |dsts| then short else |dsts|);
    }
    var responses := Answer(t, dsts, short);
    ok := FillDestinations(cfg, dsts, responses);
  }

  class TransactGetBuilder {
    var dsts: seq<Item>

    constructor ()
      ensures dsts == []
    {
      dsts := [];
    }

    method Get(dst: Item)
      modifies this
      ensures dsts == old(dsts) + [dst]
    {
      dsts := dsts + [dst];
    }

    /** Run: the keys come from the destinations as they are before any of them is filled;
        short is how many responses the service returned. */
    method Run(cfg: Config, svc: Service, f: Fault, short: nat) returns (r: Status)
      requires forall p <- dsts :: Keyable(p.View())
      modifies Destinations(dsts)
      ensures dsts == [] ==> r == Ok
      ensures dsts != [] && (|dsts| > 100 || f != NoFault) ==>
                r == Err(Failed) && Memory(Destinations(dsts)) == old(Memory(Destinations(dsts)))
      ensures 0 < |dsts| <= 100 && f == NoFault ==>
                var mem := old(Memory(Destinations(dsts)));
                var n := if short < |dsts| then short else |dsts|;
                && (r == Ok || r == Err(Failed))
                && (Memory(Destinations(dsts)), r == Ok)
                   == FillAll(Reader(cfg.codec), mem, dsts, Snapshot(svc.table, mem, dsts, n))
                && (DistinctItems(dsts) ==>
                      GetRight(cfg.codec, svc.table, mem, dsts, n, Memory(Destinations(dsts)), r == Ok))
    {
      if dsts == [] { return Ok; }
      if |dsts| > MAX_ITEMS || f != NoFault { return Err(Failed); }
      var ok := ReadSnapshot(cfg, svc.table, dsts, short);
      r := if ok then Ok else Err(Failed);
    }
  }
}
