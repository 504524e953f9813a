/** What holds of every interleaving. */
module Runs {
  import opened Text
  import opened Store
  import opened Tags
  import opened Model
  import opened Keys
  import opened Compress
  import opened Crud
  import opened OwnKeys
  import opened History
  import opened Protocol

  /** In every reachable state a live record's Version is the number of writes committed to
      its key since it came into existence. */
  lemma VersionCountsCommits(cfg: Config, actions: seq<Action>, k: Key)
    requires k in Run(cfg, actions).table
    ensures var s := Run(cfg, actions);
            VersionOf(s.table[k]) == Some(Count(s.log, k)) && Count(s.log, k) >= 1
  {
    RunOk(cfg, actions);
    var s := Run(cfg, actions);
    assert Lookup(s.table, k) == Current(s.log, k);
    VersionCounts(s.log, k);
  }

  /** A write that expects the version some read saw is accepted only if no write was
      committed to the key since, unless the key was deleted in between. */
  lemma InterveningCommitInvalidates(cfg: Config, actions: seq<Action>, o: Origin, w: Write)
    requires var s := Run(cfg, actions);
             && BasisIn(s.log, o) && !DeletedSince(s.log, o.key, o.at)
             && Target(w) == Some(o.key) && Expected(w) == VersionOf(o.seen) && Expected(w).Some?
    ensures var s := Run(cfg, actions);
            Admits(s.table, w) ==> Latest(s.log, o.key) == o.at && Lookup(s.table, o.key) == Some(o.seen)
  {
    RunOk(cfg, actions);
    var s := Run(cfg, actions);
    SameWrite(s.log, o);
    LatestIs(s.log, o.key);
    assert Lookup(s.table, o.key) == Current(s.log, o.key);
    VersionCounts(s.log, o.key);
  }

  /** No lost update, over every run of every client: a committed version-guarded put or
      update that relied on a read replaces exactly what was read if and only if it goes to
      the key that was read, expects the version read, and the key was not deleted since. */
  lemma NoLostUpdateInRuns(cfg: Config, actions: seq<Action>, i: nat)
    requires var log := Run(cfg, actions).log;
             i < |log| && Expected(log[i].entry.w).Some? && log[i].entry.basis.Some?
    ensures var log := Run(cfg, actions).log; var o := log[i].entry.basis.value;
            && (Replaces(log, i, o) <==> Sound(log, i, o))
            && (Replaces(log, i, o) ==> Current(log[..i], log[i].key) == Some(o.seen))
  {
    RunOk(cfg, actions);
    NoLostUpdate(Run(cfg, actions).log, i);
  }

  /** For a put of a record that was created by a put, what the caller can check is whether
      the pointer was sent before since it was read, for stamping is not rolled back, and
      whether an edit moved its key, for PK and SK are computed from the edited fields.
      Counterexamples has a run for each of the three conditions in which it alone fails. */
  lemma FirstSendDecides(cfg: Config, actions: seq<Action>, i: nat)
    requires var log := Run(cfg, actions).log;
             && i < |log| && log[i].entry.w.PutItem? && log[i].entry.basis.Some?
             && CreatedAt(log[i].entry.basis.value.seen) != ZERO_INSTANT
    ensures var log := Run(cfg, actions).log; var o := log[i].entry.basis.value;
            log[i].entry.source.Some? &&
            (Replaces(log, i, o)
             <==> log[i].entry.source.value.first && o.key == log[i].key && !DeletedSince(log[..i], o.key, o.at))
  {
    RunOk(cfg, actions);
    var log := Run(cfg, actions).log;
    assert EntryOk(cfg, log, log[i].entry);
    NoLostUpdate(log, i);
  }

  /** Counter conservation over runs. */
  lemma CounterConservedInRuns(cfg: Config, actions: seq<Action>, k: Key, attr: string, from: nat)
    requires var log := Run(cfg, actions).log;
             && from <= |log|
             && Current(log[..from], k).Some? && AttrAt(Current(log[..from], k).value, attr).Some?
             && Current(log[..from], k).value[attr].N?
             && forall i | from <= i < |log| && log[i].key == k :: CountsOnly(log, i, attr)
    ensures var s := Run(cfg, actions);
            && k in s.table && attr in s.table[k]
            && s.table[k][attr] == N(Current(s.log[..from], k).value[attr].n + SumDeltas(s.log[from..], k, attr))
  {
    RunOk(cfg, actions);
    var s := Run(cfg, actions);
    CounterConserved(s.log, k, attr, from);
    assert Lookup(s.table, k) == Current(s.log, k);
  }

  /** The type index over runs: queries see a record exactly when no re-put replaced it. */
  lemma TypeIndexInRuns(cfg: Config, actions: seq<Action>, k: Key)
    requires cfg.gsi1PKAttr != "PK" && cfg.gsi1PKAttr != "SK"
    requires forall c <- Run(cfg, actions).log :: c.key == k ==> !Names(c.entry.w, cfg.gsi1PKAttr)
    ensures var s := Run(cfg, actions);
            AttrAt(ItemOf(Lookup(s.table, k)), cfg.gsi1PKAttr)
            == if IndexEntry(s.log, k).Some? then Some(S(IndexEntry(s.log, k).value)) else None
  {
    RunOk(cfg, actions);
    var s := Run(cfg, actions);
    forall i | 0 <= i < |s.log| && s.log[i].key == k ensures IndexDiscipline(s.log[i].entry, cfg.gsi1PKAttr) {
      assert EntryOk(cfg, s.log, s.log[i].entry) && s.log[i] in s.log;
    }
    TypeIndexExactly(s.log, k, cfg.gsi1PKAttr);
    assert Lookup(s.table, k) == Current(s.log, k);
  }

  // ----- CreatedAt and CreatedBy -----

  /** Clients leave creation data alone: a record is born by a put under a non-zero clock,
      a later put relies on a read of the same incarnation, an update names neither field. */
  predicate CreationLeftAlone(log: Log, p: nat)
    requires p < |log|
  {
    var k, x := log[p].key, log[p].entry;
    if Count(log[..p], k) == 0 then x.w.PutItem? && CreatedAt(x.w.item) != ZERO_INSTANT
    else match x.w
      case PutItem(_, _) =>
        x.basis.Some? && x.basis.value.key == k && !DeletedSince(log[..p], k, x.basis.value.at)
      case UpdateItem(_, _, _) => !Names(x.w, "CreatedAt") && !Names(x.w, "CreatedBy")
      case _ => true
  }

  lemma {:induction false} CreatedNonZero(cfg: Config, log: Log, k: Key, j: nat)
    requires Legal(log) && forall i | 0 <= i < |log| :: EntryOk(cfg, log, log[i].entry)
    requires j < |log| && log[j].key == k && log[j].after.Some?
    requires forall p | 0 <= p <= j && log[p].key == k && log[p].after.Some? :: CreationLeftAlone(log, p)
    ensures CreatedAt(log[j].after.value) != ZERO_INSTANT && "CreatedBy" in log[j].after.value
    ensures Count(log[..j], k) > 0 ==> Carries(log, j, "CreatedAt") && Carries(log, j, "CreatedBy")
    decreases j
  {
    var x := log[j].entry;
    assert LegalAt(log, j) && CreationLeftAlone(log, j) && EntryOk(cfg, log, x);
    if Count(log[..j], k) > 0 {
      LegalPrefix(log, j);
      VersionCounts(log[..j], k);
      LatestIs(log[..j], k);
      if x.w.PutItem? {
        assert log[x.basis.value.at].after == Some(x.basis.value.seen);
        CreatedNonZero(cfg, log, k, x.basis.value.at);
      } else {
        var p := Latest(log[..j], k);
        CreatedNonZero(cfg, log, k, p);
        UpdateCarries(Current(log[..j], k), x.w, "CreatedAt");
        UpdateCarries(Current(log[..j], k), x.w, "CreatedBy");
      }
    }
  }

  /** CreatedAt and CreatedBy stay what they were for a whole incarnation. */
  lemma CreationConstant(cfg: Config, actions: seq<Action>, k: Key, i: nat, j: nat)
    requires var log := Run(cfg, actions).log;
             && i <= j < |log| && log[i].key == k && log[j].key == k
             && log[i].after.Some? && !DeletedSince(log[..j + 1], k, i)
             && forall p | 0 <= p <= j && log[p].key == k && log[p].after.Some? :: CreationLeftAlone(log, p)
    ensures var log := Run(cfg, actions).log;
            && log[j].after.Some?
            && AttrAt(log[j].after.value, "CreatedAt") == AttrAt(log[i].after.value, "CreatedAt")
            && AttrAt(log[j].after.value, "CreatedBy") == AttrAt(log[i].after.value, "CreatedBy")
  {
    RunOk(cfg, actions);
    var log := Run(cfg, actions).log;
    forall p | 0 <= p <= j && log[p].key == k && Count(log[..p], k) > 0 && log[p].after.Some?
      ensures Carries(log, p, "CreatedAt") && Carries(log, p, "CreatedBy")
    {
      CreatedNonZero(cfg, log, k, p);
    }
    CarriedConstant(log, k, "CreatedAt", i, j);
    CarriedConstant(log, k, "CreatedBy", i, j);
  }

  // ----- UpdatedAt -----

  function OpTime(op: Op): Option<int> {
    match op
    case OpPut(_, a) => Some(a.now.instant)
    case OpUpdate(_, _, _, _, _, a) => Some(a.now.instant)
    case _ => None
  }

  /** The clock readings of a request do not go backwards. */
  predicate InOrder(ops: seq<Op>, clock: int) {
    if ops == [] then true
    else if OpTime(ops[0]).None? then InOrder(ops[1..], clock)
    else clock <= OpTime(ops[0]).value && InOrder(ops[1..], OpTime(ops[0]).value)
  }

  /** The clock is globally monotone: every reading is at least all earlier ones. */
  predicate MonotoneClock(cfg: Config, actions: seq<Action>) {
    if actions == [] then true
    else
      var n := |actions| - 1;
      MonotoneClock(cfg, actions[..n]) &&
      (actions[n].Send? ==> InOrder(actions[n].ops, Run(cfg, actions[..n]).clock))
  }

  predicate TimeOk(x: Entry, clock: int) {
    x.w.PutItem? || x.w.UpdateItem? ==>
      && StampTime(x.w) <= clock
      && (x.basis.Some? ==> UpdatedAt(x.basis.value.seen) <= StampTime(x.w))
  }

  ghost predicate TimeInv(s: State) {
    && (forall i | 0 <= i < |s.log| :: s.log[i].after.Some? ==> UpdatedAt(s.log[i].after.value) <= s.clock)
    && (forall i | 0 <= i < |s.log| :: TimeOk(s.log[i].entry, s.clock))
    && (forall c <- s.copies :: s.copies[c].origin.Some? ==> UpdatedAt(s.copies[c].origin.value.seen) <= s.clock)
    && (forall r <- s.sent, x | x in s.sent[r] :: TimeOk(x, s.clock))
  }

  ghost predicate CopiesBefore(copies: map<nat, Copy>, clock: int) {
    forall c <- copies :: copies[c].origin.Some? ==> UpdatedAt(copies[c].origin.value.seen) <= clock
  }

  lemma {:induction false} PrepareTimes(cfg: Config, copies: map<nat, Copy>, ops: seq<Op>, clock: int)
    requires CopiesBefore(copies, clock) && InOrder(ops, clock)
    ensures var p := Prepare(cfg, copies, ops, clock);
            && clock <= p.clock && CopiesBefore(p.copies, clock)
            && (p.entries.Some? ==> forall x <- p.entries.value :: TimeOk(x, p.clock))
    decreases |ops|
  {
    if ops == [] {
    } else {
      match ops[0]
      case OpPut(c, a) =>
        if c in copies && Putable(cfg, copies[c].e) {
          var next := copies[c := copies[c].(e := Stamp(copies[c].e, a), clean := false)];
          assert CopiesBefore(next, clock);
          if PutOf(cfg, copies[c].e, a).Some? {
            RecordHolds(cfg, copies[c].e, a);
            assert StampTime(PutOf(cfg, copies[c].e, a).value) == a.now.instant;
            assert CopiesBefore(next, a.now.instant);
            PrepareTimes(cfg, next, ops[1..], a.now.instant);
            PrepareOrigins(cfg, next, ops[1..], a.now.instant, clock);
          }
        }
      case OpDelete(t, key) => PrepareTimes(cfg, copies, ops[1..], clock);
      case OpCheck(t, key, v) => PrepareTimes(cfg, copies, ops[1..], clock);
      case OpUpdate(t, id, changes, v, basedOn, a) =>
        if DefaultKey(t) {
          UpdateChangesShape(changes, a);
          assert CopiesBefore(copies, a.now.instant);
          PrepareTimes(cfg, copies, ops[1..], a.now.instant);
          PrepareOrigins(cfg, copies, ops[1..], a.now.instant, clock);
        }
    }
  }

  /** Preparing a request changes no copy's origin. */
  lemma {:induction false} PrepareOrigins(cfg: Config, copies: map<nat, Copy>, ops: seq<Op>, clock: int, bound: int)
    requires CopiesBefore(copies, bound)
    ensures CopiesBefore(Prepare(cfg, copies, ops, clock).copies, bound)
    decreases |ops|
  {
    if ops == [] {
    } else {
      match ops[0]
      case OpPut(c, a) =>
        if c in copies && Putable(cfg, copies[c].e) {
          var next := copies[c := copies[c].(e := Stamp(copies[c].e, a), clean := false)];
          assert CopiesBefore(next, bound);
          PrepareOrigins(cfg, next, ops[1..], Max(clock, a.now.instant), bound);
        }
      case OpDelete(t, key) => PrepareOrigins(cfg, copies, ops[1..], clock, bound);
      case OpCheck(t, key, v) => PrepareOrigins(cfg, copies, ops[1..], clock, bound);
      case OpUpdate(t, id, changes, v, basedOn, a) =>
        PrepareOrigins(cfg, copies, ops[1..], Max(clock, a.now.instant), bound);
    }
  }

  /** What a commit stores carries the time its write was stamped with. */
  lemma CommitTime(cfg: Config, log: Log, i: nat)
    requires Legal(log) && i < |log| && log[i].after.Some?
    ensures UpdatedAt(log[i].after.value) == StampTime(log[i].entry.w)
    ensures log[i].entry.w.PutItem? || log[i].entry.w.UpdateItem?
  {
    assert LegalAt(log, i);
    if log[i].entry.w.UpdateItem? {
      UpdateOutcome(Current(log[..i], log[i].key), log[i].entry.w, "");
    }
  }

  lemma DeliverTimes(cfg: Config, s: State, r: nat)
    requires Inv(cfg, s) && TimeInv(s)
    ensures TimeInv(Next(cfg, s, Deliver(r)))
  {
    if r in s.sent && Store.Commit(s.table, Writes(s.sent[r])).Some? {
      var es := s.sent[r];
      forall x <- es ensures EntryOk(cfg, s.log, x) && Committable(s.log, x) {}
      AcceptedTargets(s.table, es);
      RecordAllOk(s.table, s.log, es);
      var l := Next(cfg, s, Deliver(r)).log;
      forall i | 0 <= i < |l|
        ensures TimeOk(l[i].entry, s.clock)
        ensures l[i].after.Some? ==> UpdatedAt(l[i].after.value) <= s.clock
      {
        if i < |s.log| {
          assert l[i] == s.log[i];
        } else {
          assert l[i].entry in es;
          if l[i].after.Some? { CommitTime(cfg, l, i); }
        }
      }
    }
  }

  lemma ReadTimes(cfg: Config, s: State, c: nat, t: StructType, k: Key)
    requires Inv(cfg, s) && TimeInv(s)
    ensures TimeInv(Next(cfg, s, ReadCopy(c, t, k)))
  {
    LatestIs(s.log, k);
    assert Lookup(s.table, k) == Current(s.log, k);
  }

  lemma SendTimes(cfg: Config, s: State, r: nat, ops: seq<Op>)
    requires Inv(cfg, s) && TimeInv(s) && InOrder(ops, s.clock)
    ensures TimeInv(Next(cfg, s, Send(r, ops)))
  {
    PrepareTimes(cfg, s.copies, ops, s.clock);
    var s' := Next(cfg, s, Send(r, ops));
    forall q <- s'.sent, x | x in s'.sent[q] ensures TimeOk(x, s'.clock) {
      if q in s.sent && x in s.sent[q] { assert TimeOk(x, s.clock); }
    }
  }

  lemma NextTimes(cfg: Config, s: State, a: Action)
    requires Inv(cfg, s) && TimeInv(s) && (a.Send? ==> InOrder(a.ops, s.clock))
    ensures TimeInv(Next(cfg, s, a))
  {
    match a
    case Construct(c, e) =>
    case ReadCopy(c, t, k) => ReadTimes(cfg, s, c, t, k);
    case Edit(c, fields) =>
    case Acknowledge(c, at) =>
    case Send(r, ops) => SendTimes(cfg, s, r, ops);
    case Deliver(r) => DeliverTimes(cfg, s, r);
  }

  lemma {:induction false} RunTimes(cfg: Config, actions: seq<Action>)
    requires MonotoneClock(cfg, actions)
    ensures TimeInv(Run(cfg, actions))
  {
    if actions == [] {
    } else {
      var n := |actions| - 1;
      RunTimes(cfg, actions[..n]);
      RunOk(cfg, actions[..n]);
      NextTimes(cfg, Run(cfg, actions[..n]), actions[n]);
    }
  }

  /** With a globally monotone clock, UpdatedAt never goes backwards along a key's versions
      while every write is soundly guarded by a read, although stamping precedes commit. */
  lemma UpdatedAtNeverGoesBack(cfg: Config, actions: seq<Action>, k: Key, i: nat, j: nat)
    requires MonotoneClock(cfg, actions)
    requires var log := Run(cfg, actions).log;
             && i <= j < |log| && log[i].key == k && log[j].key == k && log[i].after.Some?
             && forall p | i < p <= j && log[p].key == k :: GuardedSoundly(log, p)
    ensures var log := Run(cfg, actions).log;
            log[j].after.Some? && UpdatedAt(log[i].after.value) <= UpdatedAt(log[j].after.value)
  {
    RunOk(cfg, actions);
    RunTimes(cfg, actions);
    var log := Run(cfg, actions).log;
    forall p | 0 <= p < |log| && log[p].entry.basis.Some? && log[p].after.Some?
      ensures UpdatedAt(log[p].entry.basis.value.seen) <= StampTime(log[p].entry.w)
    {
      CommitTime(cfg, log, p);
      assert TimeOk(log[p].entry, Run(cfg, actions).clock);
    }
    UpdatedAtMonotone(log, k, i, j);
  }

  // ----- Addressing -----

  /** All writes to the key come from one struct type, and updates target existing records
      and leave the ID alone. */
  predicate OneType(log: Log, k: Key, t: StructType) {
    forall i | 0 <= i < |log| && log[i].key == k ::
      log[i].entry.w.DeleteItem? ||
      (log[i].entry.t == t &&
       (log[i].entry.w.UpdateItem? ==> Count(log[..i], k) > 0 && !Names(log[i].entry.w, "ID")))
  }

  lemma {:induction false} StoredId(cfg: Config, log: Log, k: Key, t: StructType)
    requires Legal(log) && (forall i | 0 <= i < |log| :: EntryOk(cfg, log, log[i].entry))
    requires DefaultKey(t) && OneType(log, k, t) && Current(log, k).Some?
    ensures var a := Current(log, k).value;
            "ID" in a && a["ID"].S? && k == IdKey(t, a["ID"].s)
  {
    LatestIs(log, k);
    var i := Latest(log, k);
    StoredIdAt(cfg, log, k, t, i);
  }

  lemma {:induction false} StoredIdAt(cfg: Config, log: Log, k: Key, t: StructType, i: nat)
    requires Legal(log) && (forall i | 0 <= i < |log| :: EntryOk(cfg, log, log[i].entry))
    requires DefaultKey(t) && OneType(log, k, t) && i < |log| && log[i].key == k && log[i].after.Some?
    ensures var a := log[i].after.value;
            "ID" in a && a["ID"].S? && k == IdKey(t, a["ID"].s)
    decreases i
  {
    var x := log[i].entry;
    assert LegalAt(log, i) && EntryOk(cfg, log, x);
    if x.w.PutItem? {
      AddressingById(x.source.value.stamped);
    } else {
      LegalPrefix(log, i);
      VersionCounts(log[..i], k);
      LatestIs(log[..i], k);
      StoredIdAt(cfg, log, k, t, Latest(log[..i], k));
      UpdateCarries(Current(log[..i], k), x.w, "ID");
    }
  }

  /** Addressing, ID-only types: every stored record sits at the key computed from its own
      stored ID. */
  lemma StoredAtOwnId(cfg: Config, actions: seq<Action>, k: Key, t: StructType)
    requires var s := Run(cfg, actions);
             DefaultKey(t) && OneType(s.log, k, t) && k in s.table
    ensures var a := Run(cfg, actions).table[k];
            "ID" in a && a["ID"].S? && k == IdKey(t, a["ID"].s)
  {
    RunOk(cfg, actions);
    var s := Run(cfg, actions);
    assert Lookup(s.table, k) == Current(s.log, k);
    StoredId(cfg, s.log, k, t);
  }

  /** Addressing, types with key clauses: every stored record reads back as an entity whose
      own PK and SK are the key it sits at. Without KeysReprint that fails: OwnKeyIff. */
  lemma StoredAtOwnKey(cfg: Config, actions: seq<Action>, k: Key, t: StructType)
    requires var s := Run(cfg, actions);
             && Faithful(cfg.codec) && !DefaultKey(t) && KeysReprint(t)
             && OneType(s.log, k, t) && k in s.table
    ensures InPlace(cfg.codec, t, Run(cfg, actions).table[k], k)
  {
    RunOk(cfg, actions);
    var s := Run(cfg, actions);
    assert Lookup(s.table, k) == Current(s.log, k);
    LatestIs(s.log, k);
    var i := Latest(s.log, k);
    var x := s.log[i].entry;
    assert LegalAt(s.log, i) && EntryOk(cfg, s.log, x);
    var e := x.source.value.stamped;
    var isNew := Record(cfg, e, true) == Some(x.w.item);
    assert Record(cfg, e, isNew) == Some(x.w.item);
    RecordInPlace(cfg, e, isNew);
  }
}
