/** Steps of the machine in Protocol, for runs that are written out. */
module Steps {
  import opened Text
  import opened Sequences
  import opened Store
  import opened Tags
  import opened Model
  import opened Compress
  import opened Crud
  import opened History
  import opened Protocol

  lemma RunSnoc(cfg: Config, actions: seq<Action>, a: Action)
    ensures Run(cfg, actions + [a]) == Next(cfg, Run(cfg, actions), a)
  {
    assert (actions + [a])[..|actions|] == actions;
  }

  lemma RunTwo(cfg: Config, actions: seq<Action>, a: Action, b: Action)
    ensures Run(cfg, actions + [a, b]) == Next(cfg, Next(cfg, Run(cfg, actions), a), b)
  {
    AppendTwo(actions, a, b);
    RunSnoc(cfg, actions, a);
    RunSnoc(cfg, actions + [a], b);
  }

  // ----- Puts -----

  /** The entry a put of a copy sends. */
  function PutEntry(cfg: Config, copy: Copy, c: nat, a: Args): Entry
    requires SealOf(cfg, copy.e, a).Some?
  {
    Entry(SealOf(cfg, copy.e, a).value, copy.e.t, copy.origin, Some(Source(c, Stamp(copy.e, a), copy.clean)))
  }

  lemma PreparePut(cfg: Config, copies: map<nat, Copy>, c: nat, a: Args, clock: int)
    requires c in copies && SealOf(cfg, copies[c].e, a).Some?
    ensures Prepare(cfg, copies, [OpPut(c, a)], clock)
            == Prepared(copies[c := copies[c].(e := Stamp(copies[c].e, a), clean := false)],
                        Some([PutEntry(cfg, copies[c], c, a)]), Max(clock, a.now.instant))
  {
    var ops := [OpPut(c, a)];
    var stamped := copies[c := copies[c].(e := Stamp(copies[c].e, a), clean := false)];
    assert ops[1..] == [];
    var x := PutEntry(cfg, copies[c], c, a);
    var rest := Prepare(cfg, stamped, ops[1..], Max(clock, a.now.instant));
    assert rest == Prepared(stamped, Some([]), Max(clock, a.now.instant));
    assert Prepare(cfg, copies, ops, clock) == Prepend(x, rest);
    assert [x] + [] == [x];
  }

  /** Delivering a request with one accepted write. */
  lemma DeliverOne(cfg: Config, s: State, r: nat, x: Entry, k: Key)
    requires r in s.sent && s.sent[r] == [x] && !x.w.Check? && Target(x.w) == Some(k)
    requires Judge(Lookup(s.table, k), x.w) == Accepted
    ensures var after := Outcome(Lookup(s.table, k), x.w);
            Next(cfg, s, Deliver(r)) == s.(table := Place(s.table, k, after), log := s.log + [Commit(k, x, after)])
  {
    assert Writes([x]) == [x.w];
    OneEntryIsSend(s.table, x.w);
    AcceptedTargets(s.table, [x]);
    RecordOne(s.table, s.log, x);
  }

  lemma DeliverRefused(cfg: Config, s: State, r: nat, x: Entry)
    requires r in s.sent && s.sent[r] == [x] && !Admits(s.table, x.w)
    ensures Next(cfg, s, Deliver(r)) == s
  {
    assert Writes([x]) == [x.w] && x.w in Writes([x]);
  }

  lemma RecordOne(table: Table, log: Log, x: Entry)
    requires Target(x.w).Some?
    ensures (forall y <- [x] :: Target(y.w).Some?) && RecordAll(table, log, [x]) == Record1(table, log, x)
  {
    assert [x][1..] == [];
  }

  /** The state once the put of a copy was prepared and sent. */
  function PutSent(cfg: Config, s: State, c: nat, r: nat, a: Args): State
    requires c in s.copies && SealOf(cfg, s.copies[c].e, a).Some?
  {
    s.(copies := s.copies[c := s.copies[c].(e := Stamp(s.copies[c].e, a), clean := false)],
       sent := s.sent[r := [PutEntry(cfg, s.copies[c], c, a)]], clock := Max(s.clock, a.now.instant))
  }

  lemma SendNext(cfg: Config, s: State, c: nat, r: nat, a: Args)
    requires c in s.copies && SealOf(cfg, s.copies[c].e, a).Some?
    ensures Next(cfg, s, Send(r, [OpPut(c, a)])) == PutSent(cfg, s, c, r, a)
  {
    PreparePut(cfg, s.copies, c, a, s.clock);
  }

  /** Sending the put of a copy in a request of its own, and delivering it once. */
  function PutActions(c: nat, r: nat, a: Args): seq<Action> {
    [Send(r, [OpPut(c, a)]), Deliver(r)]
  }

  lemma PutAccepted(cfg: Config, actions: seq<Action>, c: nat, r: nat, a: Args, k: Key, x: Entry)
    requires var s := Run(cfg, actions);
             && c in s.copies && SealOf(cfg, s.copies[c].e, a).Some? && x == PutEntry(cfg, s.copies[c], c, a)
             && x.w.PutItem? && Target(x.w) == Some(k) && Judge(Lookup(s.table, k), x.w) == Accepted
    ensures var s := Run(cfg, actions);
            Run(cfg, actions + PutActions(c, r, a))
            == PutSent(cfg, s, c, r, a).(table := s.table[k := x.w.item],
                                         log := s.log + [Commit(k, x, Some(x.w.item))])
  {
    var s := Run(cfg, actions);
    RunTwo(cfg, actions, Send(r, [OpPut(c, a)]), Deliver(r));
    SendNext(cfg, s, c, r, a);
    DeliverOne(cfg, PutSent(cfg, s, c, r, a), r, x, k);
  }

  lemma PutRefused(cfg: Config, actions: seq<Action>, c: nat, r: nat, a: Args)
    requires var s := Run(cfg, actions);
             && c in s.copies && SealOf(cfg, s.copies[c].e, a).Some?
             && !Admits(s.table, SealOf(cfg, s.copies[c].e, a).value)
    ensures Run(cfg, actions + PutActions(c, r, a)) == PutSent(cfg, Run(cfg, actions), c, r, a)
  {
    var s := Run(cfg, actions);
    RunTwo(cfg, actions, Send(r, [OpPut(c, a)]), Deliver(r));
    SendNext(cfg, s, c, r, a);
    DeliverRefused(cfg, PutSent(cfg, s, c, r, a), r, PutEntry(cfg, s.copies[c], c, a));
  }

  /** Creating a record in three actions. */
  function CreateActions(c: nat, e: Entity, a: Args): seq<Action> {
    [Construct(c, e)] + PutActions(c, c, a)
  }

  lemma CreateSeal(cfg: Config, e: Entity, a: Args, k: Key)
    requires IsNew(e) && SealOf(cfg, e, a).Some? && Target(SealOf(cfg, e, a).value) == Some(k)
    ensures SealOf(cfg, e, a).value.PutItem? && Judge(None, SealOf(cfg, e, a).value) == Accepted
  {
    CreateIs(cfg, e, a);
    CreateAccepted(SealOf(cfg, e, a).value, k);
  }

  lemma Constructed(cfg: Config, actions: seq<Action>, c: nat, e: Entity)
    ensures var s := Run(cfg, actions);
            Run(cfg, actions + [Construct(c, e)]) == s.(copies := s.copies[c := Copy(e, None, false)])
  {
    RunSnoc(cfg, actions, Construct(c, e));
  }

  lemma CreateSplits(actions: seq<Action>, c: nat, e: Entity, a: Args)
    ensures actions + CreateActions(c, e, a) == actions + [Construct(c, e)] + PutActions(c, c, a)
  {}

  lemma CreateState(cfg: Config, actions: seq<Action>, c: nat, e: Entity, a: Args, k: Key)
    requires IsNew(e) && SealOf(cfg, e, a).Some? && Target(SealOf(cfg, e, a).value) == Some(k)
    requires k !in Run(cfg, actions).table
    ensures var s, x := Run(cfg, actions), PutEntry(cfg, Copy(e, None, false), c, a);
            var built := s.(copies := s.copies[c := Copy(e, None, false)]);
            && x.w.PutItem?
            && Run(cfg, actions + CreateActions(c, e, a))
               == PutSent(cfg, built, c, c, a).(table := s.table[k := x.w.item],
                                                log := s.log + [Commit(k, x, Some(x.w.item))])
  {
    Constructed(cfg, actions, c, e);
    CreateSeal(cfg, e, a, k);
    PutAccepted(cfg, actions + [Construct(c, e)], c, c, a, k, PutEntry(cfg, Copy(e, None, false), c, a));
    CreateSplits(actions, c, e, a);
  }

  lemma CreateRun(cfg: Config, actions: seq<Action>, c: nat, e: Entity, a: Args, k: Key)
    requires IsNew(e) && SealOf(cfg, e, a).Some? && Target(SealOf(cfg, e, a).value) == Some(k)
    requires k !in Run(cfg, actions).table
    ensures var s, s' := Run(cfg, actions), Run(cfg, actions + CreateActions(c, e, a));
            var x := PutEntry(cfg, Copy(e, None, false), c, a);
            && x.w.PutItem? && s'.log == s.log + [Commit(k, x, Some(x.w.item))] && s'.table == s.table[k := x.w.item]
            && forall d <- s.copies | d != c :: d in s'.copies && s'.copies[d] == s.copies[d]
  {
    CreateState(cfg, actions, c, e, a, k);
  }

  lemma RePutAccepted(cfg: Config, item: Attrs, e: Entity, a: Args)
    requires !IsNew(e) && SealOf(cfg, e, a).Some? && VersionOf(item) == Some(e.version)
    ensures var w := SealOf(cfg, e, a).value;
            w.PutItem? && Expected(w) == Some(e.version) && Judge(Some(item), w) == Accepted
  {
    PutIs(cfg, e, a);
  }

  // ----- Deletes -----

  function DeleteActions(r: nat, t: StructType, k: Key): seq<Action> {
    [Send(r, [OpDelete(t, k)]), Deliver(r)]
  }

  lemma DeleteRun(cfg: Config, actions: seq<Action>, r: nat, t: StructType, k: Key)
    ensures var s, s' := Run(cfg, actions), Run(cfg, actions + DeleteActions(r, t, k));
            && s'.table == s.table - {k} && s'.copies == s.copies
            && s'.log == s.log + [Commit(k, Entry(DeleteItem(k), t, None, None), None)]
  {
    var s, x := Run(cfg, actions), Entry(DeleteItem(k), t, None, None);
    var ops := [OpDelete(t, k)];
    RunTwo(cfg, actions, Send(r, ops), Deliver(r));
    assert ops[1..] == [] && Prepare(cfg, s.copies, ops[1..], s.clock) == Prepared(s.copies, Some([]), s.clock);
    assert [x] + [] == [x];
    assert Prepare(cfg, s.copies, ops, s.clock) == Prepared(s.copies, Some([x]), s.clock);
    DeliverOne(cfg, s.(sent := s.sent[r := [x]]), r, x, k);
  }

  // ----- Reads and edits -----

  /** What a read of a readable record gives a client. */
  function CopyRead(cfg: Config, s: State, t: StructType, k: Key): Copy
    requires k in s.table && Latest(s.log, k) >= 0
  {
    Copy(Unmarshalled(cfg.codec, s.table[k], ZeroEntity(t, NIL_ID)).e,
         Some(Origin(k, Latest(s.log, k), s.table[k])), true)
  }

  lemma ReadRun(cfg: Config, actions: seq<Action>, c: nat, t: StructType, k: Key)
    requires var s := Run(cfg, actions);
             && k in s.table && WellFormedType(t) && Latest(s.log, k) >= 0
             && Unmarshalled(cfg.codec, s.table[k], ZeroEntity(t, NIL_ID)).ok
    ensures var s := Run(cfg, actions);
            Run(cfg, actions + [ReadCopy(c, t, k)]) == s.(copies := s.copies[c := CopyRead(cfg, s, t, k)])
  {
    RunSnoc(cfg, actions, ReadCopy(c, t, k));
  }

  lemma EditNext(cfg: Config, s: State, c: nat, copy: Copy, copies: map<nat, Copy>, fields: map<string, Value>)
    requires s.copies == copies[c := copy]
    ensures Next(cfg, s, Edit(c, fields)) == s.(copies := copies[c := copy.(e := copy.e.(fields := fields))])
  {}

  lemma ReadAndEdit(cfg: Config, actions: seq<Action>, c: nat, t: StructType, k: Key, fields: map<string, Value>)
    requires var s := Run(cfg, actions);
             && k in s.table && WellFormedType(t) && Latest(s.log, k) >= 0
             && Unmarshalled(cfg.codec, s.table[k], ZeroEntity(t, NIL_ID)).ok
    ensures var s := Run(cfg, actions);
            var copy := CopyRead(cfg, s, t, k);
            Run(cfg, actions + [ReadCopy(c, t, k), Edit(c, fields)])
            == s.(copies := s.copies[c := copy.(e := copy.e.(fields := fields))])
  {
    var s := Run(cfg, actions);
    ReadRun(cfg, actions, c, t, k);
    RunSnoc(cfg, actions + [ReadCopy(c, t, k)], Edit(c, fields));
    assert actions + [ReadCopy(c, t, k), Edit(c, fields)] == actions + [ReadCopy(c, t, k)] + [Edit(c, fields)];
    EditNext(cfg, s.(copies := s.copies[c := CopyRead(cfg, s, t, k)]), c, CopyRead(cfg, s, t, k), s.copies, fields);
  }
}
