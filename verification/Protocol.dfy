/** Any number of clients interleaving reads, in-memory edits, sends and deliveries. */
module Protocol {
  import opened Text
  import opened Store
  import opened Tags
  import opened Model
  import opened Keys
  import opened Compress
  import opened Crud
  import opened History

  // ----- The machine -----

  /** A pointer in some client's memory. It is clean while it has not been sent since it was
      read or acknowledged. */
  datatype Copy = Copy(e: Entity, origin: Option<Origin>, clean: bool)

  /** One operation of a request. Put, Update.Run and Delete send one; TransactWrite sends
      puts, deletes and condition checks together. */
  datatype Op =
    | OpPut(c: nat, a: Args)
    | OpDelete(t: StructType, key: Key)
    | OpCheck(t: StructType, key: Key, version: int)
    | OpUpdate(t: StructType, id: string, changes: seq<Change>, ifVersion: Option<int>, basedOn: Option<nat>, a: Args)

  datatype Action =
    | Construct(c: nat, e: Entity)
    | ReadCopy(c: nat, t: StructType, k: Key)
    | Edit(c: nat, fields: map<string, Value>)
    | Acknowledge(c: nat, at: nat)
    | Send(r: nat, ops: seq<Op>)
    | Deliver(r: nat)

  datatype State = State(table: Table, log: Log, copies: map<nat, Copy>, sent: map<nat, seq<Entry>>, clock: int)

  const INIT := State(map[], [], map[], map[], 0)

  datatype Prepared = Prepared(copies: map<nat, Copy>, entries: Option<seq<Entry>>, clock: int)

  function Max(a: int, b: int): int {
    if a < b then b else a
  }

  function Prepend(x: Entry, p: Prepared): Prepared {
    p.(entries := if p.entries.Some? then Some([x] + p.entries.value) else None)
  }

  /** Building a request: puts are stamped in memory one after the other, and stay stamped
      when a later one cannot be marshalled. */
  function Prepare(cfg: Config, copies: map<nat, Copy>, ops: seq<Op>, clock: int): Prepared {
    if ops == [] then Prepared(copies, Some([]), clock)
    else match ops[0]
      case OpPut(c, a) =>
        if c !in copies || !Putable(cfg, copies[c].e) then Prepared(copies, None, clock)
        else
          var e := copies[c].e;
          var w := PutOf(cfg, e, a);
          var stamped := copies[c := copies[c].(e := Stamp(e, a), clean := false)];
          if w.None? then Prepared(stamped, None, Max(clock, a.now.instant))
          else
            var x := Entry(w.value, e.t, copies[c].origin, Some(Source(c, Stamp(e, a), copies[c].clean)));
            Prepend(x, Prepare(cfg, stamped, ops[1..], Max(clock, a.now.instant)))
      case OpDelete(t, key) =>
        Prepend(Entry(DeleteItem(key), t, None, None), Prepare(cfg, copies, ops[1..], clock))
      case OpCheck(t, key, v) =>
        Prepend(Entry(Check(key, Compare("Version", Eq, N(v))), t, None, None), Prepare(cfg, copies, ops[1..], clock))
      case OpUpdate(t, id, changes, v, basedOn, a) =>
        if !DefaultKey(t) then Prepared(copies, None, clock)
        else
          var basis := if basedOn.Some? && basedOn.value in copies then copies[basedOn.value].origin else None;
          var x := Entry(UpdateOf(t, id, changes, v, a), t, basis, None);
          Prepend(x, Prepare(cfg, copies, ops[1..], Max(clock, a.now.instant)))
  }

  /** A request may be delivered any number of times: an error tells the client nothing. */
  function Next(cfg: Config, s: State, a: Action): State {
    match a
    case Construct(c, e) => s.(copies := s.copies[c := Copy(e, None, false)])
    case ReadCopy(c, t, k) =>
      var r := Unmarshalled(cfg.codec, ItemOf(Lookup(s.table, k)), ZeroEntity(t, NIL_ID));
      if k !in s.table || !WellFormedType(t) || !r.ok then s
      else
        var at := Latest(s.log, k);
        if at < 0 then s
        else s.(copies := s.copies[c := Copy(r.e, Some(Origin(k, at, s.table[k])), true)])
    case Edit(c, fields) =>
      if c !in s.copies then s
      else s.(copies := s.copies[c := s.copies[c].(e := s.copies[c].e.(fields := fields))])
    case Acknowledge(c, at) =>
      if c in s.copies && at < |s.log| && s.log[at].after.Some? &&
         s.log[at].entry.source.Some? && s.log[at].entry.source.value.copy == c &&
         s.log[at].entry.source.value.stamped == s.copies[c].e
      then s.(copies := s.copies[c := Copy(s.copies[c].e,
                                           Some(Origin(s.log[at].key, at, s.log[at].after.value)), true)])
      else s
    case Send(r, ops) =>
      var p := Prepare(cfg, s.copies, ops, s.clock);
      s.(copies := p.copies, clock := p.clock,
         sent := if p.entries.Some? then s.sent[r := p.entries.value] else s.sent)
    case Deliver(r) =>
      if r !in s.sent || Store.Commit(s.table, Writes(s.sent[r])).None? then s
      else
        AcceptedTargets(s.table, s.sent[r]);
        var (t, l) := RecordAll(s.table, s.log, s.sent[r]);
        s.(table := t, log := l)
  }

  function Run(cfg: Config, actions: seq<Action>): State {
    if actions == [] then INIT
    else Next(cfg, Run(cfg, actions[..|actions| - 1]), actions[|actions| - 1])
  }

  // ----- The invariant -----

  function CreatedAt(item: Attrs): int {
    if "CreatedAt" in item && item["CreatedAt"].N? then item["CreatedAt"].n else ZERO_INSTANT
  }

  function CreatedBy(item: Attrs): Option<Value> {
    AttrAt(item, "CreatedBy")
  }

  /** A copy agrees with the record it was read from as far as the library's fields go. */
  predicate CopyOk(log: Log, c: Copy) {
    c.origin.Some? ==>
      var o := c.origin.value;
      && BasisIn(log, o) && VersionOf(o.seen).Some?
      && (c.clean ==> VersionOf(o.seen) == Some(c.e.version))
      && (CreatedAt(o.seen) != ZERO_INSTANT ==>
            && c.e.createdAt.instant == CreatedAt(o.seen)
            && ("CreatedBy" in o.seen ==> Some(S(c.e.createdBy)) == CreatedBy(o.seen))
            && (!c.clean ==> c.e.version > VersionOf(o.seen).value))
  }

  predicate PutOk(cfg: Config, x: Entry) {
    && x.source.Some? && x.w.PutItem?
    && var e := x.source.value.stamped; var item := x.w.item;
       && e.t == x.t && Putable(cfg, e)
       && HoldsModel(item, e) && KeyOf(item) == Some(EntityKey(e))
       && (Record(cfg, e, true) == Some(item) || Record(cfg, e, false) == Some(item))
       && IndexDiscipline(x, cfg.gsi1PKAttr)
       && e.createdAt.instant == CreatedAt(item)
       && (x.basis.Some? && CreatedAt(x.basis.value.seen) != ZERO_INSTANT ==>
             var seen := x.basis.value.seen;
             && Expected(x.w).Some?
             && (Expected(x.w) == VersionOf(seen) <==> x.source.value.first)
             && CreatedAt(item) == CreatedAt(seen)
             && ("CreatedBy" in seen ==> CreatedBy(item) == CreatedBy(seen)))
  }

  ghost predicate EntryOk(cfg: Config, log: Log, x: Entry) {
    && Shaped(x.w)
    && (x.basis.Some? ==> BasisIn(log, x.basis.value))
    && (x.w.PutItem? <==> x.source.Some?) && (x.w.PutItem? ==> PutOk(cfg, x))
    && (x.w.UpdateItem? ==> DefaultKey(x.t) && exists id :: x.w.key == IdKey(x.t, id))
  }

  ghost predicate Inv(cfg: Config, s: State) {
    && Legal(s.log) && TableOf(s.table, s.log)
    && (forall i | 0 <= i < |s.log| :: EntryOk(cfg, s.log, s.log[i].entry))
    && (forall c <- s.copies :: CopyOk(s.log, s.copies[c]))
    && (forall r <- s.sent, x | x in s.sent[r] :: EntryOk(cfg, s.log, x))
  }

  lemma EntryGrows(cfg: Config, log: Log, more: Log, x: Entry)
    requires EntryOk(cfg, log, x) && log <= more
    ensures EntryOk(cfg, more, x)
  {}

  lemma CopyGrows(log: Log, more: Log, c: Copy)
    requires CopyOk(log, c) && log <= more
    ensures CopyOk(more, c)
  {}

  // ----- Each action keeps the invariant -----

  /** How a put request relates to the read behind its copy. */
  lemma PutBasisOk(log: Log, copy: Copy, a: Args, w: Write)
    requires CopyOk(log, copy) && copy.origin.Some? && CreatedAt(copy.origin.value.seen) != ZERO_INSTANT
    requires w.PutItem? && w.cond == GuardOf(copy.e) && HoldsModel(w.item, Stamp(copy.e, a))
    ensures var seen := copy.origin.value.seen;
            && Expected(w).Some?
            && (Expected(w) == VersionOf(seen) <==> copy.clean)
            && CreatedAt(w.item) == CreatedAt(seen)
            && ("CreatedBy" in seen ==> CreatedBy(w.item) == CreatedBy(seen))
  {}

  lemma PutShapeOk(e: Entity, a: Args, w: Write)
    requires w.PutItem? && w.cond == GuardOf(e) && HoldsModel(w.item, Stamp(e, a))
    ensures Shaped(w) && Stamp(e, a).createdAt.instant == CreatedAt(w.item)
  {}

  lemma PutRecordOk(cfg: Config, e: Entity, a: Args)
    requires Putable(cfg, e) && PutOf(cfg, e, a).Some?
    ensures Putable(cfg, Stamp(e, a)) && Stamp(e, a).t == e.t
    ensures var w := PutOf(cfg, e, a).value;
            && w.PutItem? && w.cond == GuardOf(e) && HoldsModel(w.item, Stamp(e, a))
            && KeyOf(w.item) == Some(EntityKey(Stamp(e, a)))
            && (Record(cfg, Stamp(e, a), true) == Some(w.item) || Record(cfg, Stamp(e, a), false) == Some(w.item))
            && AttrAt(w.item, cfg.gsi1PKAttr) == if w.cond == NotExists("PK") then Some(S(e.t.name)) else None
  {
    RecordHolds(cfg, e, a);
  }

  /** The entry a put sends is in order. */
  lemma PutEntryOk(cfg: Config, log: Log, c: nat, copy: Copy, a: Args)
    requires CopyOk(log, copy) && Putable(cfg, copy.e) && PutOf(cfg, copy.e, a).Some?
    ensures EntryOk(cfg, log, Entry(PutOf(cfg, copy.e, a).value, copy.e.t, copy.origin,
                                    Some(Source(c, Stamp(copy.e, a), copy.clean))))
  {
    PutRecordOk(cfg, copy.e, a);
    PutEntryFrom(cfg, log, c, copy, a, PutOf(cfg, copy.e, a).value);
  }

  lemma PutEntryFrom(cfg: Config, log: Log, c: nat, copy: Copy, a: Args, w: Write)
    requires CopyOk(log, copy) && w.PutItem? && w.cond == GuardOf(copy.e)
    requires Putable(cfg, Stamp(copy.e, a)) && HoldsModel(w.item, Stamp(copy.e, a))
    requires KeyOf(w.item) == Some(EntityKey(Stamp(copy.e, a)))
    requires Record(cfg, Stamp(copy.e, a), true) == Some(w.item) || Record(cfg, Stamp(copy.e, a), false) == Some(w.item)
    requires AttrAt(w.item, cfg.gsi1PKAttr) == if w.cond == NotExists("PK") then Some(S(copy.e.t.name)) else None
    ensures EntryOk(cfg, log, Entry(w, copy.e.t, copy.origin, Some(Source(c, Stamp(copy.e, a), copy.clean))))
  {
    PutShapeOk(copy.e, a, w);
    if copy.origin.Some? && CreatedAt(copy.origin.value.seen) != ZERO_INSTANT { PutBasisOk(log, copy, a, w); }
  }

  /** Stamping in memory keeps a copy in order; it is no longer clean. */
  lemma StampedCopyOk(log: Log, copy: Copy, a: Args)
    requires CopyOk(log, copy)
    ensures CopyOk(log, copy.(e := Stamp(copy.e, a), clean := false))
  {}

  lemma {:induction false} PrepareOk(cfg: Config, log: Log, copies: map<nat, Copy>, ops: seq<Op>, clock: int)
    requires forall c <- copies :: CopyOk(log, copies[c])
    ensures var p := Prepare(cfg, copies, ops, clock);
            && (forall c <- p.copies :: CopyOk(log, p.copies[c]))
            && (p.entries.Some? ==> forall x <- p.entries.value :: EntryOk(cfg, log, x))
    decreases |ops|
  {
    if ops == [] {
    } else {
      match ops[0]
      case OpPut(c, a) =>
        if c in copies && Putable(cfg, copies[c].e) {
          StampedCopyOk(log, copies[c], a);
          var next := copies[c := copies[c].(e := Stamp(copies[c].e, a), clean := false)];
          if PutOf(cfg, copies[c].e, a).Some? {
            PutEntryOk(cfg, log, c, copies[c], a);
            PrepareOk(cfg, log, next, ops[1..], Max(clock, a.now.instant));
          }
        }
      case OpDelete(t, key) => PrepareOk(cfg, log, copies, ops[1..], clock);
      case OpCheck(t, key, v) => PrepareOk(cfg, log, copies, ops[1..], clock);
      case OpUpdate(t, id, changes, v, basedOn, a) =>
        if DefaultKey(t) {
          UpdateChangesShape(changes, a);
          PrepareOk(cfg, log, copies, ops[1..], Max(clock, a.now.instant));
        }
    }
  }

  /** What a read copy shares with its record. */
  lemma ReadModel(codec: Codec, av: Attrs, t: StructType)
    requires WellFormedType(t) && Unmarshalled(codec, av, ZeroEntity(t, NIL_ID)).ok
    ensures var e := Unmarshalled(codec, av, ZeroEntity(t, NIL_ID)).e;
            && ModelKinds(av)
            && (VersionOf(av).Some? ==> VersionOf(av) == Some(e.version))
            && e.createdAt.instant == CreatedAt(av)
            && ("CreatedBy" in av ==> Some(S(e.createdBy)) == CreatedBy(av))
  {
    ZeroWellTyped(t, NIL_ID);
    UnmarshalledFieldwise(codec, av, ZeroEntity(t, NIL_ID));
  }

  lemma ReadCopyOk(codec: Codec, log: Log, av: Attrs, t: StructType, o: Origin)
    requires WellFormedType(t) && Unmarshalled(codec, av, ZeroEntity(t, NIL_ID)).ok
    requires BasisIn(log, o) && o.seen == av && VersionOf(av).Some?
    ensures CopyOk(log, Copy(Unmarshalled(codec, av, ZeroEntity(t, NIL_ID)).e, Some(o), true))
  {
    ReadModel(codec, av, t);
  }

  lemma ReadOk(cfg: Config, s: State, c: nat, t: StructType, k: Key)
    requires Inv(cfg, s)
    ensures Inv(cfg, Next(cfg, s, ReadCopy(c, t, k)))
  {
    if k in s.table && WellFormedType(t) && Unmarshalled(cfg.codec, s.table[k], ZeroEntity(t, NIL_ID)).ok {
      LatestIs(s.log, k);
      assert Lookup(s.table, k) == Current(s.log, k);
      VersionCounts(s.log, k);
      ReadCopyOk(cfg.codec, s.log, s.table[k], t, Origin(k, Latest(s.log, k), s.table[k]));
    }
  }

  lemma AcknowledgeOk(cfg: Config, s: State, c: nat, at: nat)
    requires Inv(cfg, s)
    ensures Inv(cfg, Next(cfg, s, Acknowledge(c, at)))
  {
    if at < |s.log| && s.log[at].entry.source.Some? {
      assert EntryOk(cfg, s.log, s.log[at].entry) && LegalAt(s.log, at);
    }
  }

  lemma DeliverOk(cfg: Config, s: State, r: nat)
    requires Inv(cfg, s)
    ensures Inv(cfg, Next(cfg, s, Deliver(r)))
  {
    if r in s.sent && Store.Commit(s.table, Writes(s.sent[r])).Some? {
      var es := s.sent[r];
      forall x <- es ensures EntryOk(cfg, s.log, x) && Committable(s.log, x) {}
      RecordAllOk(s.table, s.log, es);
      var (t, l) := RecordAll(s.table, s.log, es);
      forall i | 0 <= i < |l| ensures EntryOk(cfg, l, l[i].entry) {
        if i < |s.log| {
          assert l[i] == s.log[i];
          EntryGrows(cfg, s.log, l, s.log[i].entry);
        } else {
          EntryGrows(cfg, s.log, l, l[i].entry);
        }
      }
      forall c <- s.copies ensures CopyOk(l, s.copies[c]) { CopyGrows(s.log, l, s.copies[c]); }
      forall q <- s.sent, x | x in s.sent[q] ensures EntryOk(cfg, l, x) { EntryGrows(cfg, s.log, l, x); }
    }
  }

  lemma NextOk(cfg: Config, s: State, a: Action)
    requires Inv(cfg, s)
    ensures Inv(cfg, Next(cfg, s, a))
  {
    match a
    case Construct(c, e) =>
    case ReadCopy(c, t, k) => ReadOk(cfg, s, c, t, k);
    case Edit(c, fields) =>
    case Acknowledge(c, at) => AcknowledgeOk(cfg, s, c, at);
    case Send(r, ops) => PrepareOk(cfg, s.log, s.copies, ops, s.clock);
    case Deliver(r) => DeliverOk(cfg, s, r);
  }

  /** Every reachable state satisfies the invariant. */
  lemma {:induction false} RunOk(cfg: Config, actions: seq<Action>)
    ensures Inv(cfg, Run(cfg, actions))
  {
    if actions == [] {
    } else {
      RunOk(cfg, actions[..|actions| - 1]);
      NextOk(cfg, Run(cfg, actions[..|actions| - 1]), actions[|actions| - 1]);
    }
  }
}
