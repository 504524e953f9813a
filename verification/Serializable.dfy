/** Clients that read any number of items, decide what to write from what they read, and
    commit with one guarded transaction. */
module Serializable {
  import opened Text
  import opened Store
  import opened Tags
  import opened Model
  import opened Keys
  import opened Compress
  import opened Crud
  import opened History
  import opened Stamping

  // ----- Transactions -----

  /** One entry a client queues on the transaction builder. A request of a single update is what
      UpdateBuilder.Run sends. */
  datatype TxOp =
    | TxPut(e: Entity, a: Args)
    | TxDelete(t: StructType, key: Key)
    | TxCheck(t: StructType, key: Key, version: int)
    | TxUpdate(t: StructType, id: string, changes: seq<Change>, ifVersion: Option<int>, a: Args)

  /** What a client has read, by key; a missing item reads as None. */
  type View = map<Key, Option<Attrs>>

  /** What a client queues, as a function of what it read. */
  type Program = View -> seq<TxOp>

  function EntryOf(cfg: Config, op: TxOp): Option<Entry> {
    match op
    case TxPut(e, a) =>
      var w := SealOf(cfg, e, a);
      if w.None? then None else Some(Entry(w.value, e.t, None, None))
    case TxDelete(t, key) => Some(Entry(DeleteItem(key), t, None, None))
    case TxCheck(t, key, version) => Some(Entry(Check(key, Compare("Version", Eq, N(version))), t, None, None))
    case TxUpdate(t, id, changes, ifVersion, a) =>
      if DefaultKey(t) then Some(Entry(UpdateOf(t, id, changes, ifVersion, a), t, None, None)) else None
  }

  function Request(cfg: Config, ops: seq<TxOp>): Option<seq<Entry>> {
    if ops == [] then Some([])
    else
      var head, tail := EntryOf(cfg, ops[0]), Request(cfg, ops[1..]);
      if head.None? || tail.None? then None else Some([head.value] + tail.value)
  }

  // ----- The machine -----

  /** A read: the item seen and the commit that had left it there. */
  datatype Seen = Seen(at: int, item: Option<Attrs>)

  function ViewOf(saw: map<Key, Seen>): View {
    map k | k in saw :: saw[k].item
  }

  datatype Txn = Txn(prog: Program, saw: map<Key, Seen>, request: Option<seq<Entry>>)

  /** A transaction that committed, with the length of the log it found. */
  datatype Executed = Executed(prog: Program, saw: map<Key, Seen>, request: seq<Entry>, start: nat)

  datatype State = State(table: Table, log: Log, txns: map<nat, Txn>, done: seq<Executed>)

  /** Clients interleave freely; a submitted request is delivered any number of times. */
  datatype Action =
    | Begin(r: nat, prog: Program)
    | ReadItem(r: nat, k: Key)
    | Submit(r: nat)
    | Deliver(r: nat)

  const INIT := State(map[], [], map[], [])

  function Next(cfg: Config, s: State, a: Action): State {
    match a
    case Begin(r, prog) => s.(txns := s.txns[r := Txn(prog, map[], None)])
    case ReadItem(r, k) =>
      if r !in s.txns || s.txns[r].request.Some? then s
      else
        var seen := Seen(Latest(s.log, k), Lookup(s.table, k));
        s.(txns := s.txns[r := s.txns[r].(saw := s.txns[r].saw[k := seen])])
    case Submit(r) =>
      if r !in s.txns || s.txns[r].request.Some? then s
      else
        var x := s.txns[r];
        s.(txns := s.txns[r := x.(request := Request(cfg, x.prog(ViewOf(x.saw))))])
    case Deliver(r) =>
      if r !in s.txns || s.txns[r].request.None? then s
      else
        var x := s.txns[r];
        var es := x.request.value;
        if Store.Commit(s.table, Writes(es)).None? then s
        else
          AcceptedTargets(s.table, es);
          var (t, l) := RecordAll(s.table, s.log, es);
          State(t, l, s.txns, s.done + [Executed(x.prog, x.saw, es, |s.log|)])
  }

  function Run(cfg: Config, actions: seq<Action>): State {
    if actions == [] then INIT
    else Next(cfg, Run(cfg, actions[..|actions| - 1]), actions[|actions| - 1])
  }

  // ----- Serial execution -----

  function ReadAll(t: Table, keys: set<Key>): View {
    map k | k in keys :: Lookup(t, k)
  }

  /** One transaction run by itself: it reads, decides and commits with nothing in between. */
  function Alone(cfg: Config, t: Table, prog: Program, keys: set<Key>): Option<Table> {
    var es := Request(cfg, prog(ReadAll(t, keys)));
    if es.None? then None else Store.Commit(t, Writes(es.value))
  }

  /** The transactions one after the other; None when one of them would not commit. */
  function Serial(cfg: Config, done: seq<Executed>): Option<Table> {
    if done == [] then Some(map[])
    else
      var n := |done| - 1;
      var t := Serial(cfg, done[..n]);
      if t.None? then None else Alone(cfg, t.value, done[n].prog, done[n].saw.Keys)
  }

  // ----- What guards a read -----

  /** The request holds the read: a put or a condition check at the version read, or a
      create for a key that was read as free. */
  predicate Held(ws: seq<Write>, k: Key, item: Option<Attrs>) {
    exists w <- ws ::
      && Target(w) == Some(k)
      && if item.Some? then Expected(w).Some? && Expected(w) == VersionOf(item.value)
         else Guard(w) == NotExists("PK")
  }

  /** Every item read is listed at the version read. */
  predicate ListsReads(d: Executed) {
    forall k <- d.saw :: Held(Writes(d.request), k, d.saw[k].item)
  }

  /** No item read was deleted between its read and the commit. */
  predicate Undeleted(log: Log, d: Executed) {
    d.start <= |log| &&
    forall k <- d.saw :: d.saw[k].item.Some? ==> !DeletedSince(log[..d.start], k, d.saw[k].at)
  }

  // ----- The invariant -----

  predicate SeenOk(log: Log, k: Key, x: Seen) {
    x.item.Some? ==> x.at >= 0 && BasisIn(log, Origin(k, x.at, x.item.value))
  }

  predicate EntriesOk(es: seq<Entry>) {
    forall x <- es :: Shaped(x.w) && x.basis.None?
  }

  ghost predicate TxnOk(cfg: Config, log: Log, x: Txn) {
    && (forall k <- x.saw :: SeenOk(log, k, x.saw[k]))
    && (x.request.Some? ==> x.request == Request(cfg, x.prog(ViewOf(x.saw))) && EntriesOk(x.request.value))
  }

  ghost predicate Inv(cfg: Config, s: State) {
    && Legal(s.log) && TableOf(s.table, s.log)
    && (forall r <- s.txns :: TxnOk(cfg, s.log, s.txns[r]))
    && (forall d <- s.done :: d.start <= |s.log|)
  }

  lemma PutShaped(item: Attrs, e: Entity, a: Args)
    requires HoldsModel(item, Stamp(e, a))
    ensures Shaped(PutItem(item, GuardOf(e))) && VersionOf(item) == Some(Stamp(e, a).version)
  {}

  lemma SealShaped(cfg: Config, e: Entity, a: Args)
    requires SealOf(cfg, e, a).Some?
    ensures Shaped(SealOf(cfg, e, a).value)
  {
    RecordHolds(cfg, e, a);
    PutShaped(PutOf(cfg, e, a).value.item, e, a);
  }

  lemma EntryShaped(cfg: Config, op: TxOp)
    requires EntryOf(cfg, op).Some?
    ensures Shaped(EntryOf(cfg, op).value.w) && EntryOf(cfg, op).value.basis.None?
  {
    if op.TxPut? { SealShaped(cfg, op.e, op.a); }
    if op.TxUpdate? { UpdateChangesShape(op.changes, op.a); }
  }

  lemma {:induction false} RequestOk(cfg: Config, ops: seq<TxOp>)
    requires Request(cfg, ops).Some?
    ensures EntriesOk(Request(cfg, ops).value)
  {
    if ops == [] {
    } else {
      EntryShaped(cfg, ops[0]);
      RequestOk(cfg, ops[1..]);
    }
  }

  lemma ReadOk(cfg: Config, s: State, r: nat, k: Key)
    requires Inv(cfg, s)
    ensures Inv(cfg, Next(cfg, s, ReadItem(r, k)))
  {
    LatestIs(s.log, k);
    assert Lookup(s.table, k) == Current(s.log, k);
    assert SeenOk(s.log, k, Seen(Latest(s.log, k), Lookup(s.table, k)));
  }

  lemma TxnGrows(cfg: Config, log: Log, more: Log, x: Txn)
    requires TxnOk(cfg, log, x) && log <= more
    ensures TxnOk(cfg, more, x)
  {}

  lemma DeliverOk(cfg: Config, s: State, r: nat)
    requires Inv(cfg, s)
    ensures Inv(cfg, Next(cfg, s, Deliver(r))) && s.log <= Next(cfg, s, Deliver(r)).log
  {
    if r in s.txns && s.txns[r].request.Some? {
      assert TxnOk(cfg, s.log, s.txns[r]);
      var es := s.txns[r].request.value;
      if Store.Commit(s.table, Writes(es)).Some? {
        RecordAllOk(s.table, s.log, es);
        var l := RecordAll(s.table, s.log, es).1;
        forall q <- s.txns ensures TxnOk(cfg, l, s.txns[q]) { TxnGrows(cfg, s.log, l, s.txns[q]); }
      }
    }
  }

  lemma NextOk(cfg: Config, s: State, a: Action)
    requires Inv(cfg, s)
    ensures Inv(cfg, Next(cfg, s, a)) && s.log <= Next(cfg, s, a).log
  {
    match a
    case Begin(r, prog) =>
    case ReadItem(r, k) => ReadOk(cfg, s, r, k);
    case Submit(r) =>
      if r in s.txns && s.txns[r].request.None? {
        var x := s.txns[r];
        assert TxnOk(cfg, s.log, x);
        if Request(cfg, x.prog(ViewOf(x.saw))).Some? { RequestOk(cfg, x.prog(ViewOf(x.saw))); }
      }
    case Deliver(r) => DeliverOk(cfg, s, r);
  }

  lemma {:induction false} RunOk(cfg: Config, actions: seq<Action>)
    ensures Inv(cfg, Run(cfg, actions))
  {
    if actions == [] {
    } else {
      RunOk(cfg, actions[..|actions| - 1]);
      NextOk(cfg, Run(cfg, actions[..|actions| - 1]), actions[|actions| - 1]);
    }
  }

  // ----- Serializability -----

  /** An accepted request finds an item it holds exactly as it was read if and only if the
      item was not deleted since. */
  lemma HeldRead(table: Table, log: Log, ws: seq<Write>, k: Key, x: Seen)
    requires Legal(log) && TableOf(table, log) && SeenOk(log, k, x)
    requires (forall w <- ws :: Admits(table, w)) && Held(ws, k, x.item)
    ensures x.item.None? ==> Lookup(table, k).None?
    ensures x.item.Some? ==> (Latest(log, k) == x.at <==> !DeletedSince(log, k, x.at))
    ensures x.item.Some? && !DeletedSince(log, k, x.at) ==> Lookup(table, k) == x.item
  {
    assert Lookup(table, k) == Current(log, k);
    LatestIs(log, k);
    SelfKeyedTable(table, log);
    SelfKeyedHasPk(table, k);
    VersionCounts(log, k);
    if x.item.Some? && !DeletedSince(log, k, x.at) {
      SameWrite(log, Origin(k, x.at, x.item.value));
    }
  }

  /** What a delivered transaction finds is what it acted on. */
  lemma CommitReads(cfg: Config, s: State, r: nat)
    requires Inv(cfg, s) && r in s.txns && s.txns[r].request.Some?
    requires var x := s.txns[r];
             && Store.Commit(s.table, Writes(x.request.value)).Some?
             && ListsReads(Executed(x.prog, x.saw, x.request.value, |s.log|))
             && Undeleted(s.log, Executed(x.prog, x.saw, x.request.value, |s.log|))
    ensures var x := s.txns[r];
            && ReadAll(s.table, x.saw.Keys) == ViewOf(x.saw)
            && Alone(cfg, s.table, x.prog, x.saw.Keys) == Store.Commit(s.table, Writes(x.request.value))
  {
    var x := s.txns[r];
    assert TxnOk(cfg, s.log, x);
    assert s.log[..|s.log|] == s.log;
    forall k <- x.saw ensures Lookup(s.table, k) == x.saw[k].item {
      HeldRead(s.table, s.log, Writes(x.request.value), k, x.saw[k]);
    }
    assert ReadAll(s.table, x.saw.Keys) == ViewOf(x.saw);
  }

  lemma LogGrows(cfg: Config, actions: seq<Action>)
    requires actions != []
    ensures var s, s' := Run(cfg, actions[..|actions| - 1]), Run(cfg, actions);
            && s.log <= s'.log && s.done <= s'.done && forall d <- s.done :: d in s'.done && d.start <= |s.log|
  {
    RunOk(cfg, actions[..|actions| - 1]);
    var s := Run(cfg, actions[..|actions| - 1]);
    NextOk(cfg, s, actions[|actions| - 1]);
    StepDone(cfg, s, actions[|actions| - 1]);
  }

  /** The first n committed transactions, run one by one, leave the table t, and each reads
      what it had acted on. */
  ghost predicate RunsSerially(cfg: Config, done: seq<Executed>, t: Table) {
    && Serial(cfg, done) == Some(t)
    && forall i | 0 <= i < |done| ::
         && Serial(cfg, done[..i]).Some?
         && ReadAll(Serial(cfg, done[..i]).value, done[i].saw.Keys) == ViewOf(done[i].saw)
  }

  lemma OneMore(cfg: Config, done: seq<Executed>, t: Table, d: Executed, t': Table)
    requires RunsSerially(cfg, done, t)
    requires ReadAll(t, d.saw.Keys) == ViewOf(d.saw) && Alone(cfg, t, d.prog, d.saw.Keys) == Some(t')
    ensures RunsSerially(cfg, done + [d], t')
  {
    var next := done + [d];
    assert next[..|done|] == done;
    assert forall i | 0 <= i < |done| :: next[..i] == done[..i];
  }

  /** A delivery either commits one more transaction, or changes neither the table nor the
      list of committed ones; no other action does. */
  lemma StepDone(cfg: Config, s: State, a: Action)
    requires Inv(cfg, s)
    ensures var s' := Next(cfg, s, a);
            (s'.done == s.done && s'.table == s.table) ||
            (a.Deliver? && a.r in s.txns && s.txns[a.r].request.Some? &&
             var x := s.txns[a.r];
             && s'.done == s.done + [Executed(x.prog, x.saw, x.request.value, |s.log|)]
             && Store.Commit(s.table, Writes(x.request.value)) == Some(s'.table))
  {
    if a.Deliver? && a.r in s.txns && s.txns[a.r].request.Some? {
      assert TxnOk(cfg, s.log, s.txns[a.r]);
      var es := s.txns[a.r].request.value;
      if Store.Commit(s.table, Writes(es)).Some? { RecordAllOk(s.table, s.log, es); }
    }
  }

  lemma StepSerial(cfg: Config, s: State, a: Action)
    requires Inv(cfg, s) && RunsSerially(cfg, s.done, s.table)
    requires forall d <- Next(cfg, s, a).done :: ListsReads(d) && (d.start == |s.log| ==> Undeleted(s.log, d))
    ensures RunsSerially(cfg, Next(cfg, s, a).done, Next(cfg, s, a).table)
  {
    StepDone(cfg, s, a);
    var s' := Next(cfg, s, a);
    if s'.done != s.done {
      var x := s.txns[a.r];
      var d := Executed(x.prog, x.saw, x.request.value, |s.log|);
      assert d in s'.done;
      CommitReads(cfg, s, a.r);
      OneMore(cfg, s.done, s.table, d, s'.table);
    }
  }

  /** Guarded transactions are serializable: when every committed transaction lists each
      item it read at the version it read, and no such item was deleted in between, the
      committed transactions run one by one in commit order leave the same table, each
      reading exactly the values it had acted on. */
  lemma {:induction false} GuardedSerializable(cfg: Config, actions: seq<Action>)
    requires var s := Run(cfg, actions);
             forall d <- s.done :: ListsReads(d) && Undeleted(s.log, d)
    ensures var s := Run(cfg, actions);
            && Serial(cfg, s.done) == Some(s.table)
            && forall i | 0 <= i < |s.done| ::
                 && Serial(cfg, s.done[..i]).Some?
                 && ReadAll(Serial(cfg, s.done[..i]).value, s.done[i].saw.Keys) == ViewOf(s.done[i].saw)
  {
    SerialRun(cfg, actions);
  }

  lemma {:induction false} SerialRun(cfg: Config, actions: seq<Action>)
    requires var s := Run(cfg, actions);
             forall d <- s.done :: ListsReads(d) && Undeleted(s.log, d)
    ensures RunsSerially(cfg, Run(cfg, actions).done, Run(cfg, actions).table)
  {
    if actions == [] {
    } else {
      var n := |actions| - 1;
      var s, s' := Run(cfg, actions[..n]), Run(cfg, actions);
      RunOk(cfg, actions[..n]);
      LogGrows(cfg, actions);
      forall d <- s.done ensures ListsReads(d) && Undeleted(s.log, d) { UndeletedBefore(s.log, s'.log, d); }
      SerialRun(cfg, actions[..n]);
      forall d <- s'.done ensures d.start == |s.log| ==> Undeleted(s.log, d) {
        if d.start == |s.log| { UndeletedBefore(s.log, s'.log, d); }
      }
      StepSerial(cfg, s, actions[n]);
    }
  }

  lemma UndeletedBefore(log: Log, more: Log, d: Executed)
    requires log <= more && d.start <= |log| && Undeleted(more, d)
    ensures Undeleted(log, d)
  {
    assert more[..d.start] == log[..d.start];
  }

  // ----- When a transaction's reads are the latest ones -----

  /** Every item the transaction read still held, when it committed, the very commit it read. */
  predicate ReadsLatest(log: Log, d: Executed) {
    d.start <= |log| &&
    forall k <- d.saw :: d.saw[k].item.Some? ==> Latest(log[..d.start], k) == d.saw[k].at
  }

  ghost predicate LatestIff(log: Log, d: Executed) {
    ListsReads(d) ==> (ReadsLatest(log, d) <==> Undeleted(log, d))
  }

  lemma CommitLatest(cfg: Config, s: State, r: nat)
    requires Inv(cfg, s) && r in s.txns && s.txns[r].request.Some?
    requires Store.Commit(s.table, Writes(s.txns[r].request.value)).Some?
    ensures var x := s.txns[r]; LatestIff(s.log, Executed(x.prog, x.saw, x.request.value, |s.log|))
  {
    var x := s.txns[r];
    var d := Executed(x.prog, x.saw, x.request.value, |s.log|);
    assert TxnOk(cfg, s.log, x) && s.log[..|s.log|] == s.log;
    if ListsReads(d) {
      forall k <- x.saw | x.saw[k].item.Some?
        ensures Latest(s.log, k) == x.saw[k].at <==> !DeletedSince(s.log, k, x.saw[k].at)
      {
        HeldRead(s.table, s.log, Writes(x.request.value), k, x.saw[k]);
      }
    }
  }

  lemma LatestGrows(log: Log, more: Log, d: Executed)
    requires log <= more && d.start <= |log| && LatestIff(log, d)
    ensures LatestIff(more, d)
  {
    assert more[..d.start] == log[..d.start];
  }

  /** Exactly when: a committed transaction that lists its reads acted on the latest commit of
      each item it read if and only if none of these items was deleted in between. */
  lemma {:induction false} LatestExactly(cfg: Config, actions: seq<Action>)
    ensures forall d <- Run(cfg, actions).done :: LatestIff(Run(cfg, actions).log, d)
  {
    if actions == [] {
    } else {
      var n := |actions| - 1;
      var s, s' := Run(cfg, actions[..n]), Run(cfg, actions);
      RunOk(cfg, actions[..n]);
      LogGrows(cfg, actions);
      LatestExactly(cfg, actions[..n]);
      StepDone(cfg, s, actions[n]);
      if s'.done != s.done { CommitLatest(cfg, s, actions[n].r); }
      forall d <- s'.done ensures LatestIff(s'.log, d) { LatestGrows(s.log, s'.log, d); }
    }
  }

  // ----- The library's part -----

  /** What the transaction builder sends for distinct pointers is the request of the machine. */
  lemma BuilderRequest<P>(cfg: Config, mem: map<P, Entity>, queue: seq<Queued<P>>, args: seq<Args>, ops: seq<TxOp>)
    requires |queue| == |ops| && |queue| <= |args| && forall q <- queue :: q.QueuedPut? ==> q.item in mem
    requires forall i, j | 0 <= i < j < |queue| :: queue[i].QueuedPut? ==> queue[i] != queue[j]
    requires forall i | 0 <= i < |queue| ::
               if queue[i].QueuedPut? then ops[i] == TxPut(mem[queue[i].item], args[i])
               else EntryOf(cfg, ops[i]).Some? && EntryOf(cfg, ops[i]).value.w == queue[i].w
    requires StampAll(cfg, mem, queue, args).ok
    ensures Request(cfg, ops).Some? && Writes(Request(cfg, ops).value) == StampAll(cfg, mem, queue, args).writes
  {
    StampOnce(cfg, mem, queue, args);
    var ws := StampAll(cfg, mem, queue, args).writes;
    forall i | 0 <= i < |ops| ensures EntryOf(cfg, ops[i]).Some? && EntryOf(cfg, ops[i]).value.w == ws[i] {
      assert Some(ws[i]) == OwnWrite(cfg, mem, queue[i], args[i]);
    }
    RequestIs(cfg, ops, ws);
  }

  lemma {:induction false} RequestIs(cfg: Config, ops: seq<TxOp>, ws: seq<Write>)
    requires |ws| == |ops|
    requires forall i | 0 <= i < |ops| :: EntryOf(cfg, ops[i]).Some? && EntryOf(cfg, ops[i]).value.w == ws[i]
    ensures Request(cfg, ops).Some? && Writes(Request(cfg, ops).value) == ws
  {
    if ops == [] {
    } else {
      RequestIs(cfg, ops[1..], ws[1..]);
      assert ws == [ws[0]] + ws[1..];
      WritesCons(EntryOf(cfg, ops[0]).value, Request(cfg, ops[1..]).value);
    }
  }

  lemma WritesCons(x: Entry, es: seq<Entry>)
    ensures Writes([x] + es) == [x.w] + Writes(es)
  {}
}
