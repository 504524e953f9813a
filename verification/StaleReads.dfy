/** Why serializability needs that no item is deleted between its read and the commit. */
module StaleReads {
  import opened Text
  import opened Sequences
  import opened Store
  import opened Tags
  import opened Model
  import opened Crud
  import opened History
  import opened Serializable

  function Constantly(ops: seq<TxOp>): Program {
    v => ops
  }

  /** A transaction that reads nothing and is delivered at once. */
  function AtOnce(r: nat, op: TxOp): seq<Action> {
    [Begin(r, Constantly([op])), Submit(r), Deliver(r)]
  }

  lemma RunSnoc(cfg: Config, actions: seq<Action>, a: Action)
    ensures Run(cfg, actions + [a]) == Next(cfg, Run(cfg, actions), a)
  {
    assert (actions + [a])[..|actions|] == actions;
  }

  lemma RunTwo(cfg: Config, actions: seq<Action>, a: Action, b: Action)
    ensures Run(cfg, actions + [a, b]) == Next(cfg, Next(cfg, Run(cfg, actions), a), b)
  {
    AppendTwo(actions, a, b);
    RunSnoc(cfg, actions, a);
    RunSnoc(cfg, actions + [a], b);
  }

  lemma RunThree(cfg: Config, actions: seq<Action>, a: Action, b: Action, c: Action)
    ensures Run(cfg, actions + [a, b, c]) == Next(cfg, Next(cfg, Next(cfg, Run(cfg, actions), a), b), c)
  {
    RunTwo(cfg, actions, a, b);
    RunSnoc(cfg, actions + [a, b], c);
    assert actions + [a, b, c] == actions + [a, b] + [c];
  }

  lemma RequestOne(cfg: Config, op: TxOp)
    requires EntryOf(cfg, op).Some?
    ensures Request(cfg, [op]) == Some([EntryOf(cfg, op).value])
  {
    var ops := [op];
    assert ops[1..] == [] && Request(cfg, ops[1..]) == Some([]);
    assert [EntryOf(cfg, op).value] + [] == [EntryOf(cfg, op).value];
  }

  lemma CommitOne(t: Table, log: Log, x: Entry, k: Key)
    requires Target(x.w) == Some(k) && Judge(Lookup(t, k), x.w) == Accepted
    ensures Store.Commit(t, Writes([x])).Some? && (forall y <- [x] :: Target(y.w).Some?)
    ensures RecordAll(t, log, [x]) == Record1(t, log, x)
  {
    assert Writes([x]) == [x.w];
    assert forall w <- [x.w] :: Admits(t, w);
    assert [x][1..] == [];
  }

  /** Delivering a request with one accepted entry. */
  lemma DeliverOne(cfg: Config, s: State, r: nat, x: Entry, k: Key)
    requires r in s.txns && s.txns[r].request == Some([x])
    requires Target(x.w) == Some(k) && Judge(Lookup(s.table, k), x.w) == Accepted
    ensures var s' := Next(cfg, s, Deliver(r)); var (t, l) := Record1(s.table, s.log, x);
            s' == State(t, l, s.txns, s.done + [Executed(s.txns[r].prog, s.txns[r].saw, [x], |s.log|)])
  {
    CommitOne(s.table, s.log, x, k);
  }

  lemma SubmitOne(cfg: Config, s: State, r: nat, op: TxOp, x: Entry)
    requires r in s.txns && s.txns[r].prog == Constantly([op]) && s.txns[r].request.None?
    requires Request(cfg, [op]) == Some([x])
    ensures Next(cfg, s, Submit(r)) == s.(txns := s.txns[r := s.txns[r].(request := Some([x]))])
  {}

  /** One more transaction, which read nothing, has committed and left the table t. */
  ghost predicate OneDone(s: State, s': State, r: nat, t: Table) {
    && s'.table == t
    && |s'.done| == |s.done| + 1 && s'.done[..|s.done|] == s.done && s'.done[|s.done|].saw == map[]
    && (forall q | q != r :: q in s'.txns <==> q in s.txns)
    && (forall q | q != r && q in s.txns :: s'.txns[q] == s.txns[q])
  }

  lemma AtOnceNext(cfg: Config, s: State, r: nat, op: TxOp, x: Entry, k: Key)
    requires EntryOf(cfg, op) == Some(x) && Target(x.w) == Some(k)
    requires Judge(Lookup(s.table, k), x.w) == Accepted
    ensures var begun := Next(cfg, s, Begin(r, Constantly([op])));
            var s' := Next(cfg, Next(cfg, begun, Submit(r)), Deliver(r));
            OneDone(s, s', r, Place(s.table, k, Outcome(Lookup(s.table, k), x.w)))
  {
    var begun := Next(cfg, s, Begin(r, Constantly([op])));
    RequestOne(cfg, op);
    SubmitOne(cfg, begun, r, op, x);
    DeliverOne(cfg, Next(cfg, begun, Submit(r)), r, x, k);
  }

  lemma AtOnceRun(cfg: Config, actions: seq<Action>, r: nat, op: TxOp, x: Entry, k: Key)
    requires EntryOf(cfg, op) == Some(x) && Target(x.w) == Some(k)
    requires Judge(Lookup(Run(cfg, actions).table, k), x.w) == Accepted
    ensures var s := Run(cfg, actions);
            OneDone(s, Run(cfg, actions + AtOnce(r, op)), r, Place(s.table, k, Outcome(Lookup(s.table, k), x.w)))
  {
    RunThree(cfg, actions, Begin(r, Constantly([op])), Submit(r), Deliver(r));
    AtOnceNext(cfg, Run(cfg, actions), r, op, x, k);
  }

  lemma AtOnceCreate(cfg: Config, actions: seq<Action>, r: nat, e: Entity, a: Args, k: Key)
    requires IsNew(e) && SealOf(cfg, e, a).Some? && Target(SealOf(cfg, e, a).value) == Some(k)
    requires k !in Run(cfg, actions).table
    ensures var s := Run(cfg, actions);
            && SealOf(cfg, e, a).value.PutItem?
            && OneDone(s, Run(cfg, actions + AtOnce(r, TxPut(e, a))), r, s.table[k := SealOf(cfg, e, a).value.item])
  {
    CreateIs(cfg, e, a);
    CreateAccepted(SealOf(cfg, e, a).value, k);
    AtOnceRun(cfg, actions, r, TxPut(e, a), Entry(SealOf(cfg, e, a).value, e.t, None, None), k);
  }

  lemma AtOnceDelete(cfg: Config, actions: seq<Action>, r: nat, t: StructType, k: Key)
    ensures var s := Run(cfg, actions);
            OneDone(s, Run(cfg, actions + AtOnce(r, TxDelete(t, k))), r, s.table - {k})
  {
    AtOnceRun(cfg, actions, r, TxDelete(t, k), Entry(DeleteItem(k), t, None, None), k);
  }

  /** A create, a reader that will only check version 1 of what it read, a delete, a second
      create at the same key, and then the check. */
  function StaleActions(first: TxOp, t: StructType, k: Key, second: TxOp): seq<Action> {
    StaleBefore(first, t, k, second) + [Submit(1), Deliver(1)]
  }

  function StaleBefore(first: TxOp, t: StructType, k: Key, second: TxOp): seq<Action> {
    AtOnce(0, first) + [Begin(1, Constantly([TxCheck(t, k, 1)])), ReadItem(1, k)]
    + AtOnce(2, TxDelete(t, k)) + AtOnce(3, second)
  }

  lemma ReaderNext(cfg: Config, s: State, prog: Program, k: Key)
    ensures Next(cfg, Next(cfg, s, Begin(1, prog)), ReadItem(1, k))
            == s.(txns := s.txns[1 := Txn(prog, map[k := Seen(Latest(s.log, k), Lookup(s.table, k))], None)])
  {
    var begun := Next(cfg, s, Begin(1, prog));
    var read: map<Key, Seen> := map[];
    assert begun.txns[1] == Txn(prog, read, None);
    assert read[k := Seen(Latest(s.log, k), Lookup(s.table, k))]
       == map[k := Seen(Latest(s.log, k), Lookup(s.table, k))];
  }

  lemma StaleReader(cfg: Config, actions: seq<Action>, t: StructType, k: Key)
    ensures var s := Run(cfg, actions);
            var s' := Run(cfg, actions + [Begin(1, Constantly([TxCheck(t, k, 1)])), ReadItem(1, k)]);
            s' == s.(txns := s.txns[1 := Txn(Constantly([TxCheck(t, k, 1)]),
                                             map[k := Seen(Latest(s.log, k), Lookup(s.table, k))], None)])
  {
    RunTwo(cfg, actions, Begin(1, Constantly([TxCheck(t, k, 1)])), ReadItem(1, k));
    ReaderNext(cfg, Run(cfg, actions), Constantly([TxCheck(t, k, 1)]), k);
  }

  /** Before the check: the second record is there, and the reader has seen the first. */
  ghost predicate StaleState(s: State, was: Attrs, now: Attrs, k: Key) {
    && s.table == map[k := now] && |s.done| == 3 && (forall d <- s.done :: d.saw == map[])
    && 1 in s.txns && s.txns[1].request.None?
    && s.txns[1].saw.Keys == {k} && s.txns[1].saw[k].item == Some(was)
  }

  lemma StaleReached(cfg: Config, first: Entity, second: Entity, a: Args, b: Args, t: StructType, k: Key)
    requires IsNew(first) && IsNew(second) && SealOf(cfg, first, a).Some? && SealOf(cfg, second, b).Some?
    requires Target(SealOf(cfg, first, a).value) == Target(SealOf(cfg, second, b).value) == Some(k)
    ensures var s := Run(cfg, StaleBefore(TxPut(first, a), t, k, TxPut(second, b)));
            && SealOf(cfg, first, a).value.PutItem? && SealOf(cfg, second, b).value.PutItem?
            && StaleState(s, SealOf(cfg, first, a).value.item, SealOf(cfg, second, b).value.item, k)
            && s.txns[1].prog == Constantly([TxCheck(t, k, 1)])
  {
    var one := AtOnce(0, TxPut(first, a));
    var two := one + [Begin(1, Constantly([TxCheck(t, k, 1)])), ReadItem(1, k)];
    var three := two + AtOnce(2, TxDelete(t, k));
    assert [] + one == one;
    AtOnceCreate(cfg, [], 0, first, a, k);
    StaleReader(cfg, one, t, k);
    AtOnceDelete(cfg, two, 2, t, k);
    AtOnceCreate(cfg, three, 3, second, b, k);
    var w1, w2 := SealOf(cfg, first, a).value, SealOf(cfg, second, b).value;
    StaleStages(Run(cfg, one), Run(cfg, two), Run(cfg, three), Run(cfg, three + AtOnce(3, TxPut(second, b))),
                Constantly([TxCheck(t, k, 1)]), w1.item, w2.item, k);
  }

  lemma StaleStages(s1: State, s2: State, s3: State, s4: State, prog: Program, was: Attrs, now: Attrs, k: Key)
    requires OneDone(INIT, s1, 0, map[k := was])
    requires s2 == s1.(txns := s1.txns[1 := Txn(prog, map[k := Seen(Latest(s1.log, k), Lookup(s1.table, k))], None)])
    requires OneDone(s2, s3, 2, s2.table - {k}) && OneDone(s3, s4, 3, s3.table[k := now])
    ensures StaleState(s4, was, now, k) && s4.txns[1].prog == prog
  {
    forall i | 0 <= i < |s4.done| ensures s4.done[i].saw == map[] {
      if i < 2 { assert s4.done[i] == s3.done[i]; }
      if i < 1 { assert s3.done[i] == s2.done[i]; }
    }
    assert s4.table == map[k := now];
  }

  lemma NothingRead(cfg: Config, s: State)
    requires forall d <- s.done :: d.saw == map[]
    requires forall d <- s.done :: d.start <= |s.log|
    ensures forall d <- s.done :: ListsReads(d) && Undeleted(s.log, d)
  {}

  /** Why deletes must be left out: in this run every committed transaction lists its reads,
      but the last one acted on a record that was gone, and a serial execution would have
      shown it another. */
  lemma StaleReadCommits(cfg: Config, first: Entity, second: Entity, a: Args, b: Args, t: StructType, k: Key)
    requires IsNew(first) && IsNew(second) && SealOf(cfg, first, a).Some? && SealOf(cfg, second, b).Some?
    requires Target(SealOf(cfg, first, a).value) == Target(SealOf(cfg, second, b).value) == Some(k)
    requires SealOf(cfg, first, a).value != SealOf(cfg, second, b).value
    ensures var s := Run(cfg, StaleActions(TxPut(first, a), t, k, TxPut(second, b)));
            && |s.done| == 4 && (forall d <- s.done :: ListsReads(d))
            && Serial(cfg, s.done[..3]).Some?
            && ReadAll(Serial(cfg, s.done[..3]).value, s.done[3].saw.Keys) != ViewOf(s.done[3].saw)
  {
    var before := StaleBefore(TxPut(first, a), t, k, TxPut(second, b));
    StaleReached(cfg, first, second, a, b, t, k);
    CreateIs(cfg, first, a);
    CreateIs(cfg, second, b);
    StaleEnds(cfg, before, SealOf(cfg, first, a).value.item, SealOf(cfg, second, b).value.item, t, k);
  }

  lemma StaleEnds(cfg: Config, before: seq<Action>, was: Attrs, now: Attrs, t: StructType, k: Key)
    requires StaleState(Run(cfg, before), was, now, k) && was != now
    requires Run(cfg, before).txns[1].prog == Constantly([TxCheck(t, k, 1)])
    requires VersionOf(was) == Some(1) && VersionOf(now) == Some(1)
    ensures var s := Run(cfg, before + [Submit(1), Deliver(1)]);
            && |s.done| == 4 && (forall d <- s.done :: ListsReads(d))
            && Serial(cfg, s.done[..3]).Some?
            && ReadAll(Serial(cfg, s.done[..3]).value, s.done[3].saw.Keys) != ViewOf(s.done[3].saw)
  {
    var s := Run(cfg, before);
    RunOk(cfg, before);
    NothingRead(cfg, s);
    SerialRun(cfg, before);
    CheckRun(cfg, before, t, k);
    var all := Run(cfg, before + [Submit(1), Deliver(1)]);
    assert all.done[..3] == s.done;
    assert ReadAll(s.table, {k})[k] == Some(now) && ViewOf(all.done[3].saw)[k] == Some(was);
    CheckLists(all.done[3], k);
    assert forall d <- all.done :: d in s.done || d == all.done[3];
  }

  lemma CheckRun(cfg: Config, actions: seq<Action>, t: StructType, k: Key)
    requires var s := Run(cfg, actions);
             && 1 in s.txns && s.txns[1].prog == Constantly([TxCheck(t, k, 1)]) && s.txns[1].request.None?
             && k in s.table && VersionOf(s.table[k]) == Some(1)
    ensures var s, s' := Run(cfg, actions), Run(cfg, actions + [Submit(1), Deliver(1)]);
            s'.done
            == s.done + [Executed(s.txns[1].prog, s.txns[1].saw, [EntryOf(cfg, TxCheck(t, k, 1)).value], |s.log|)]
  {
    var op := TxCheck(t, k, 1);
    RequestOne(cfg, op);
    RunTwo(cfg, actions, Submit(1), Deliver(1));
    DeliverOne(cfg, Next(cfg, Run(cfg, actions), Submit(1)), 1, EntryOf(cfg, op).value, k);
  }

  lemma CheckLists(d: Executed, k: Key)
    requires |d.request| == 1 && d.request[0].w == Check(k, Compare("Version", Eq, N(1)))
    requires d.saw.Keys == {k} && d.saw[k].item.Some? && VersionOf(d.saw[k].item.value) == Some(1)
    ensures ListsReads(d)
  {
    assert Writes(d.request)[0] in Writes(d.request);
  }
}
