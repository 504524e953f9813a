/** Single-item operations: audit stamping, Put, Get, Delete and the update builder. */
module Crud {
  import opened Text
  import opened Store
  import opened Tags
  import opened Model
  import opened Keys
  import opened Compress

  /** The part of DB's configuration that reaches stored data. */
  datatype Config = Config(gsi1Name: string, gsi1PKAttr: string, codec: Codec)

  /** What one write takes from the clock, the actor hook and the ID generator. */
  datatype Args = Args(now: Time, actor: string, freshId: string)

  predicate Bookkeeping(cfg: Config, attr: string) {
    attr == "PK" || attr == "SK" || attr == cfg.gsi1PKAttr
  }

  predicate ValidConfig(cfg: Config) {
    cfg.gsi1PKAttr != "PK" && cfg.gsi1PKAttr != "SK" && !ModelName(cfg.gsi1PKAttr)
  }

  /** The struct's own attributes stay clear of the ones the library adds. */
  predicate Separate(cfg: Config, t: StructType) {
    forall f <- Layout(t) :: !Bookkeeping(cfg, f.attr)
  }

  predicate Putable(cfg: Config, e: Entity) {
    ValidConfig(cfg) && WellTyped(e) && Separate(cfg, e.t) && Keyable(e)
  }

  // ----- Stamping -----

  predicate IsNew(e: Entity) {
    e.createdAt.instant == ZERO_INSTANT
  }

  /** The audit fields after a write was prepared. */
  function Stamp(e: Entity, a: Args): Entity {
    if IsNew(e) then
      e.(id := if e.id == NIL_ID then a.freshId else e.id, typ := e.t.name,
         createdAt := a.now, createdBy := a.actor, updatedAt := a.now, updatedBy := a.actor, version := 1)
    else
      e.(updatedAt := a.now, updatedBy := a.actor, version := e.version + 1)
  }

  /** The condition the write goes out with. */
  function GuardOf(e: Entity): Cond {
    if IsNew(e) then NotExists("PK") else Compare("Version", Eq, N(e.version))
  }

  /** The stored form of a stamped entity. */
  function Record(cfg: Config, stamped: Entity, isNew: bool): Option<Attrs>
    requires Putable(cfg, stamped)
  {
    var m := Marshalled(cfg.codec, stamped);
    if m.None? then None
    else
      var av := m.value["PK" := S(PK(stamped))]["SK" := S(SK(stamped))];
      Some(if isNew then av[cfg.gsi1PKAttr := S(stamped.t.name)] else av)
  }

  lemma StampKeeps(cfg: Config, e: Entity, a: Args)
    requires Putable(cfg, e)
    ensures Putable(cfg, Stamp(e, a)) && Stamp(e, a).t == e.t && Stamp(e, a).fields == e.fields
  {
    forall f | f in PkFields(e.t) || f in SkFields(e.t) ensures HasField(Stamp(e, a), f) {
      assert HasField(e, f);
    }
  }

  /** The put request of an entity: None when it cannot be marshalled. */
  function PutOf(cfg: Config, e: Entity, a: Args): Option<Write>
    requires Putable(cfg, e)
  {
    StampKeeps(cfg, e, a);
    var r := Record(cfg, Stamp(e, a), IsNew(e));
    if r.None? then None else Some(PutItem(r.value, GuardOf(e)))
  }

  /** The same for any entity: None also when the builder's demands on it are not met. */
  function SealOf(cfg: Config, e: Entity, a: Args): Option<Write> {
    if Putable(cfg, e) then PutOf(cfg, e, a) else None
  }

  /** stampAndMarshal: the item is stamped in place whatever becomes of the write. */
  method StampAndMarshal(cfg: Config, item: Item, a: Args) returns (av: Option<Attrs>, cond: Cond)
    requires Putable(cfg, item.View())
    modifies item
    ensures item.View() == Stamp(old(item.View()), a)
    ensures cond == GuardOf(old(item.View()))
    ensures PutOf(cfg, old(item.View()), a) == if av.None? then None else Some(PutItem(av.value, cond))
  {
    StampKeeps(cfg, item.View(), a);
    var newItem := item.createdAt.instant == ZERO_INSTANT;
    if newItem {
      if item.id == NIL_ID {
        item.id := a.freshId;
      }
      item.typ := item.t.name;
      item.createdAt, item.createdBy := a.now, a.actor;
      item.updatedAt, item.updatedBy := a.now, a.actor;
      item.version := 1;
      cond := NotExists("PK");
    } else {
      var expected := item.version;
      item.updatedAt, item.updatedBy := a.now, a.actor;
      item.version := expected + 1;
      cond := Compare("Version", Eq, N(expected));
    }
    av := MarshalItem(cfg.codec, item);
    if av.None? { return; }
    var pk := BuildKey(item.View(), PkFields(item.t));
    var sk := BuildKey(item.View(), SkFields(item.t));
    av := Some(av.value["PK" := S(pk)]["SK" := S(sk)]);
    if newItem {
      av := Some(av.value[cfg.gsi1PKAttr := S(item.t.name)]);
    }
  }

  /** The attributes added to the marshalled entity. */
  function Extra(cfg: Config, stamped: Entity, isNew: bool): Attrs
    requires Keyable(stamped)
  {
    var x: Attrs := map["PK" := S(PK(stamped)), "SK" := S(SK(stamped))];
    if isNew then x[cfg.gsi1PKAttr := S(stamped.t.name)] else x
  }

  lemma RecordIs(cfg: Config, e: Entity, a: Args)
    requires Putable(cfg, e) && PutOf(cfg, e, a).Some?
    ensures Putable(cfg, Stamp(e, a)) && Marshalled(cfg.codec, Stamp(e, a)).Some?
    ensures PutOf(cfg, e, a).value.item
            == Marshalled(cfg.codec, Stamp(e, a)).value + Extra(cfg, Stamp(e, a), IsNew(e))
  {
    StampKeeps(cfg, e, a);
    RecordExpands(cfg, Stamp(e, a), IsNew(e));
  }

  lemma RecordExpands(cfg: Config, s: Entity, isNew: bool)
    requires Putable(cfg, s) && Record(cfg, s, isNew).Some?
    ensures Marshalled(cfg.codec, s).Some?
    ensures Record(cfg, s, isNew).value == Marshalled(cfg.codec, s).value + Extra(cfg, s, isNew)
  {
    AddThree(Marshalled(cfg.codec, s).value, S(PK(s)), S(SK(s)), cfg.gsi1PKAttr, S(s.t.name));
  }

  lemma AddThree(m: Attrs, pk: Value, sk: Value, gsi: string, name: Value)
    ensures m["PK" := pk]["SK" := sk] == m + map["PK" := pk, "SK" := sk]
    ensures m["PK" := pk]["SK" := sk][gsi := name] == m + map["PK" := pk, "SK" := sk][gsi := name]
  {}

  lemma ExtraClear(cfg: Config, stamped: Entity, isNew: bool)
    requires Putable(cfg, stamped)
    ensures forall x <- Extra(cfg, stamped, isNew) :: !ModelName(x) && forall f <- Layout(stamped.t) :: f.attr != x
  {
    forall x <- Extra(cfg, stamped, isNew) ensures Bookkeeping(cfg, x) && !ModelName(x) {}
  }

  lemma ExtraOver(cfg: Config, m: Attrs, stamped: Entity, isNew: bool)
    requires Keyable(stamped) && ValidConfig(cfg) && cfg.gsi1PKAttr !in m
    ensures var item := m + Extra(cfg, stamped, isNew);
            && KeyOf(item) == Some(EntityKey(stamped))
            && (cfg.gsi1PKAttr in item <==> isNew)
            && (isNew ==> item[cfg.gsi1PKAttr] == S(stamped.t.name))
  {}

  /** What a put request carries: the stamped audit fields, its own key, and the type-index
      attribute exactly on create. */
  lemma RecordHolds(cfg: Config, e: Entity, a: Args)
    requires Putable(cfg, e) && PutOf(cfg, e, a).Some?
    ensures Putable(cfg, Stamp(e, a))
    ensures var item := PutOf(cfg, e, a).value.item;
            && HoldsModel(item, Stamp(e, a))
            && KeyOf(item) == Some(EntityKey(Stamp(e, a)))
            && (cfg.gsi1PKAttr in item <==> IsNew(e))
            && (IsNew(e) ==> item[cfg.gsi1PKAttr] == S(e.t.name))
  {
    RecordIs(cfg, e, a);
    var s := Stamp(e, a);
    ModelStored(cfg.codec, Layout(s.t), s);
    ExtraClear(cfg, s, IsNew(e));
    HeldWith(Marshalled(cfg.codec, s).value, Extra(cfg, s, IsNew(e)), s);
    assert Bookkeeping(cfg, cfg.gsi1PKAttr);
    MarshalledOther(cfg.codec, s, cfg.gsi1PKAttr);
    ExtraOver(cfg, Marshalled(cfg.codec, s).value, s, IsNew(e));
  }

  /** Reading a stored put gives back the entity as it was stamped. */
  lemma ReadBackPut(cfg: Config, e: Entity, a: Args)
    requires Putable(cfg, e) && Faithful(cfg.codec) && PutOf(cfg, e, a).Some?
    ensures WellTyped(Stamp(e, a))
    ensures Unmarshalled(cfg.codec, PutOf(cfg, e, a).value.item, ZeroEntity(e.t, NIL_ID))
            == Read(true, Kept(cfg.codec, Stamp(e, a)))
  {
    RecordIs(cfg, e, a);
    ExtraClear(cfg, Stamp(e, a), IsNew(e));
    RoundTrip(cfg.codec, Stamp(e, a), Extra(cfg, Stamp(e, a), IsNew(e)));
  }

  /** The record is there and has the version. */
  predicate AtVersion(was: Option<Attrs>, version: int) {
    was.Some? && "Version" in was.value && was.value["Version"] == N(version)
  }

  // ----- The service as one client sees it -----

  /** A call can be lost before it takes effect or its reply afterwards. */
  datatype Fault = NoFault | LostRequest | LostReply

  datatype Reply = Done | Refused | CallError

  /** The table after a call with a single write, and what the caller is told. */
  function Sent(t: Table, w: Write, f: Fault): (Table, Reply) {
    if f == LostRequest then (t, CallError)
    else
      var verdict := if Target(w).None? then Invalid else Judge(Lookup(t, Target(w).value), w);
      if verdict == Accepted then (Apply(t, w), if f == LostReply then CallError else Done)
      else (t, if f == LostReply || verdict == Invalid then CallError else Refused)
  }

  class Service {
    var table: Table

    method Send(w: Write, f: Fault) returns (r: Reply)
      modifies this
      ensures (table, r) == Sent(old(table), w, f)
    {
      var (t, reply) := Sent(table, w, f);
      table := t;
      r := reply;
    }
  }

  /** Committing one write is what Put, Update.Run and Delete do. */
  lemma OneEntryIsSend(t: Table, w: Write)
    ensures Store.Commit(t, [w]) == if Sent(t, w, NoFault).1 == Done then Some(Sent(t, w, NoFault).0) else None
  {
    assert [w][0] == w;
    if Sent(t, w, NoFault).1 == Done {
      assert forall v <- [w] :: Admits(t, v);
      assert ApplyAll(t, [w]) == ApplyAll(Apply(t, w), []) by { assert [w][1..] == []; }
    } else {
      assert !Admits(t, w) && w in [w];
    }
  }

  datatype Error = OptimisticLock | NotFound | NonDefaultKey | Failed

  datatype Status = Ok | Err(error: Error)

  /** asOptimisticLockErr. */
  function StatusOf(r: Reply): Status {
    match r
    case Done => Ok
    case Refused => Err(OptimisticLock)
    case CallError => Err(Failed)
  }

  lemma PutIs(cfg: Config, e: Entity, a: Args)
    requires Putable(cfg, e) && PutOf(cfg, e, a).Some?
    ensures Putable(cfg, Stamp(e, a))
    ensures var w := PutOf(cfg, e, a).value;
            w.PutItem? && w.cond == GuardOf(e) && Target(w) == Some(EntityKey(Stamp(e, a)))
  {
    RecordHolds(cfg, e, a);
  }

  /** What a put carries. */
  lemma SealHolds(cfg: Config, e: Entity, a: Args)
    requires SealOf(cfg, e, a).Some?
    ensures var w := SealOf(cfg, e, a).value; w.PutItem? && HoldsModel(w.item, Stamp(e, a))
  {
    RecordHolds(cfg, e, a);
  }

  /** Model's attributes after a write was prepared: the clock reading and the actor as
      UpdatedAt and UpdatedBy; of a new value also as CreatedAt and CreatedBy, with the struct
      name, version 1 and the ID the caller chose or a fresh one; of another value what the
      caller's copy held, one version later. */
  predicate CarriesStamp(item: Attrs, e: Entity, a: Args) {
    var isNew := e.createdAt.instant == 0;
    && AttrIs(item, "UpdatedAt", N(a.now.instant)) && AttrIs(item, "UpdatedBy", S(a.actor))
    && AttrIs(item, "ID", S(if isNew && e.id == NIL_ID then a.freshId else e.id))
    && AttrIs(item, "Type", S(if isNew then e.t.name else e.typ))
    && AttrIs(item, "CreatedAt", N(if isNew then a.now.instant else e.createdAt.instant))
    && AttrIs(item, "CreatedBy", S(if isNew then a.actor else e.createdBy))
    && AttrIs(item, "Version", N(if isNew then 1 else e.version + 1))
  }

  predicate AttrIs(item: Attrs, attr: string, v: Value) {
    attr in item && item[attr] == v
  }

  lemma HeldStamp(item: Attrs, e: Entity, a: Args)
    requires HoldsModel(item, Stamp(e, a))
    ensures CarriesStamp(item, e, a)
  {}

  /** Every put carries its stamp, and the pointer holds what the put carries. */
  lemma PutCarries(cfg: Config, e: Entity, a: Args)
    requires SealOf(cfg, e, a).Some?
    ensures var w := SealOf(cfg, e, a).value;
            w.PutItem? && CarriesStamp(w.item, e, a) && HoldsModel(w.item, Stamp(e, a))
  {
    SealHolds(cfg, e, a);
    HeldStamp(SealOf(cfg, e, a).value.item, e, a);
  }

  lemma CreateIs(cfg: Config, e: Entity, a: Args)
    requires IsNew(e) && SealOf(cfg, e, a).Some?
    ensures var w := SealOf(cfg, e, a).value;
            w.PutItem? && w.cond == NotExists("PK") && Target(w).Some? && VersionOf(w.item) == Some(1)
  {
    RecordHolds(cfg, e, a);
  }

  lemma CreateAccepted(w: Write, k: Key)
    requires w.PutItem? && w.cond == NotExists("PK") && Target(w) == Some(k)
    ensures Judge(None, w) == Accepted
  {}

  /** Sending a create, or a put that expects a version. */
  lemma GuardedSent(t: Table, w: Write, k: Key, version: Option<int>)
    requires SelfKeyed(t) && w.PutItem? && Target(w) == Some(k)
    requires w.cond == if version.None? then NotExists("PK") else Compare("Version", Eq, N(version.value))
    ensures Sent(t, w, NoFault).1 == Done
            <==> if version.None? then k !in t
                 else k in t && "Version" in t[k] && t[k]["Version"] == N(version.value)
  {
    SelfKeyedHasPk(t, k);
  }

  /** A put reaches the table exactly when a create finds its key free, or a re-put finds
      the version the caller's copy held. */
  lemma PutAcceptedIff(cfg: Config, t: Table, e: Entity, a: Args)
    requires Putable(cfg, e) && SelfKeyed(t) && PutOf(cfg, e, a).Some?
    ensures Putable(cfg, Stamp(e, a))
    ensures var k := EntityKey(Stamp(e, a));
            Sent(t, PutOf(cfg, e, a).value, NoFault).1 == Done
            <==> if IsNew(e) then k !in t
                 else k in t && "Version" in t[k] && t[k]["Version"] == N(e.version)
  {
    PutIs(cfg, e, a);
    GuardedSent(t, PutOf(cfg, e, a).value, EntityKey(Stamp(e, a)), if IsNew(e) then None else Some(e.version));
  }

  lemma SelfKeyedHasPk(t: Table, k: Key)
    requires SelfKeyed(t)
    ensures "PK" in ItemOf(Lookup(t, k)) <==> k in t
  {
    if k in t { assert KeyOf(t[k]) == Some(k); }
  }

  /** Sending a put leaves the stamped record at its key, or changes nothing. */
  lemma PutTold(cfg: Config, t: Table, e: Entity, a: Args)
    requires SelfKeyed(t) && SealOf(cfg, e, a).Some?
    ensures Keyable(Stamp(e, a))
    ensures var k := EntityKey(Stamp(e, a));
            var (after, reply) := Sent(t, SealOf(cfg, e, a).value, NoFault);
            var current := if e.createdAt.instant == 0 then k !in t else AtVersion(Lookup(t, k), e.version);
            && reply == (if current then Done else Refused)
            && if current then k in after && after == t[k := after[k]] && HoldsModel(after[k], Stamp(e, a))
               else after == t
  {
    PutAcceptedIff(cfg, t, e, a);
    PutIs(cfg, e, a);
    SealHolds(cfg, e, a);
  }

  /** Put: the caller's item is stamped even when the write is refused or lost. */
  method Put(cfg: Config, svc: Service, item: Item, a: Args, f: Fault) returns (r: Status)
    requires Putable(cfg, item.View())
    modifies item, svc
    ensures item.View() == Stamp(old(item.View()), a)
    ensures var w := PutOf(cfg, old(item.View()), a);
            if w.None? then svc.table == old(svc.table) && r == Err(Failed)
            else (svc.table, r) == (Sent(old(svc.table), w.value, f).0, StatusOf(Sent(old(svc.table), w.value, f).1))
    ensures Keyable(item.View())
    ensures SealOf(cfg, old(item.View()), a).None? || f != NoFault ==> r == Err(Failed)
    ensures SealOf(cfg, old(item.View()), a).None? || f == LostRequest ==> svc.table == old(svc.table)
    ensures SealOf(cfg, old(item.View()), a).Some? && f == NoFault && SelfKeyed(old(svc.table)) ==>
              var k := EntityKey(item.View());
              var current := if old(item.createdAt.instant) == 0 then k !in old(svc.table)
                             else AtVersion(Lookup(old(svc.table), k), old(item.version));
              && r == (if current then Ok else Err(OptimisticLock))
              && if current then
                   && k in svc.table && svc.table == old(svc.table)[k := svc.table[k]]
                   && HoldsModel(svc.table[k], item.View())
                 else svc.table == old(svc.table)
  {
    ghost var e := item.View();
    StampKeeps(cfg, e, a);
    if SealOf(cfg, e, a).Some? && SelfKeyed(svc.table) { PutTold(cfg, svc.table, e, a); }
    var av, cond := StampAndMarshal(cfg, item, a);
    if av.None? { return Err(Failed); }
    var reply := svc.Send(PutItem(av.value, cond), f);
    r := StatusOf(reply);
  }

  /** A pointer whose put was refused stays stamped, so sending it again expects one version
      more: after a refused create it overwrites exactly a record at version 1, and after a
      refused re-put exactly a record one version ahead of the copy. */
  lemma RetryAfterRefusal(cfg: Config, t: Table, e: Entity, a: Args, b: Args)
    requires SelfKeyed(t) && a.now.instant != ZERO_INSTANT
    requires SealOf(cfg, e, a).Some? && Sent(t, SealOf(cfg, e, a).value, NoFault).1 == Refused
    requires SealOf(cfg, Stamp(e, a), b).Some?
    ensures var w := SealOf(cfg, Stamp(e, a), b).value;
            Target(w).Some? &&
            var k := Target(w).value;
            Sent(t, w, NoFault).1 == Done
            <==> k in t && VersionOf(t[k]) == Some(if IsNew(e) then 1 else e.version + 1)
  {
    PutIs(cfg, Stamp(e, a), b);
    var w := SealOf(cfg, Stamp(e, a), b).value;
    RestampedGuard(e, a);
    GuardedSent(t, w, Target(w).value, Some(if IsNew(e) then 1 else e.version + 1));
  }

  /** A stamped value is never new, and its next put expects the version it was stamped with. */
  lemma RestampedGuard(e: Entity, a: Args)
    requires a.now.instant != ZERO_INSTANT
    ensures GuardOf(Stamp(e, a)) == Compare("Version", Eq, N(if IsNew(e) then 1 else e.version + 1))
  {}

  /** Get. */
  method Get(cfg: Config, svc: Service, t: StructType, id: string, f: Fault) returns (r: Status, item: Item)
    ensures fresh(item) && item.t == t
    ensures r == if !DefaultKey(t) then Err(NonDefaultKey)
                 else
                   var k := IdKey(t, id);
                   if f != NoFault then Err(Failed)
                   else if k !in svc.table || svc.table[k] == map[] then Err(NotFound)
                   else if Unmarshalled(cfg.codec, svc.table[k], ZeroEntity(t, NIL_ID)).ok then Ok
                   else Err(Failed)
    ensures r == Ok ==>
              item.View() == Unmarshalled(cfg.codec, svc.table[IdKey(t, id)], ZeroEntity(t, NIL_ID)).e
  {
    item := new Item(ZeroEntity(t, NIL_ID));
    if !DefaultKey(t) { return Err(NonDefaultKey), item; }
    var k := IdKey(t, id);
    if f != NoFault { return Err(Failed), item; }
    if k !in svc.table || svc.table[k] == map[] { return Err(NotFound), item; }
    var ok := UnmarshalItemInto(cfg.codec, svc.table[k], item);
    r := if ok then Ok else Err(Failed);
  }

  /** After an accepted put of an ID-keyed type, Get by the ID finds the entity as it was
      stamped. */
  lemma GetAfterPut(cfg: Config, t: Table, e: Entity, a: Args)
    requires Faithful(cfg.codec) && DefaultKey(e.t) && SealOf(cfg, e, a).Some?
    requires Sent(t, SealOf(cfg, e, a).value, NoFault).1 == Done
    ensures WellTyped(Stamp(e, a))
    ensures var after := Sent(t, SealOf(cfg, e, a).value, NoFault).0; var k := IdKey(e.t, Stamp(e, a).id);
            && k in after
            && Unmarshalled(cfg.codec, after[k], ZeroEntity(e.t, NIL_ID)) == Read(true, Kept(cfg.codec, Stamp(e, a)))
  {
    PutIs(cfg, e, a);
    ReadBackPut(cfg, e, a);
    AddressingById(Stamp(e, a));
    PutStored(t, SealOf(cfg, e, a).value, IdKey(e.t, Stamp(e, a).id));
  }

  lemma PutStored(t: Table, w: Write, k: Key)
    requires w.PutItem? && Target(w) == Some(k) && Sent(t, w, NoFault).1 == Done
    ensures k in Sent(t, w, NoFault).0 && Sent(t, w, NoFault).0[k] == w.item
  {}

  /** Delete: unconditional, and a missing key is a success. */
  method Delete(cfg: Config, svc: Service, t: StructType, id: string, f: Fault) returns (r: Status)
    modifies svc
    ensures if !DefaultKey(t) then svc.table == old(svc.table) && r == Err(NonDefaultKey)
            else
              && svc.table == (if f == LostRequest then old(svc.table) else old(svc.table) - {IdKey(t, id)})
              && r == (if f == NoFault then Ok else Err(Failed))
  {
    if !DefaultKey(t) { return Err(NonDefaultKey); }
    var reply := svc.Send(DeleteItem(IdKey(t, id)), f);
    r := StatusOf(reply);
  }

  // ----- Updates -----

  function UpdateChanges(ops: seq<Change>, a: Args): seq<Change> {
    [SetAttr("UpdatedAt", N(a.now.instant)), SetAttr("UpdatedBy", S(a.actor))] + ops + [AddNum("Version", 1)]
  }

  function VersionGuard(version: Option<int>): Cond {
    if version.None? then Always else Compare("Version", Eq, N(version.value))
  }

  function UpdateOf(t: StructType, id: string, ops: seq<Change>, version: Option<int>, a: Args): Write
    requires DefaultKey(t)
  {
    UpdateItem(IdKey(t, id), UpdateChanges(ops, a), VersionGuard(version))
  }

  /** The caller's changes name each attribute once, and none that Run or the service owns. */
  predicate OwnChanges(ops: seq<Change>) {
    DistinctNames(ops) && forall c <- ops :: c.name !in {"", "PK", "SK", "UpdatedAt", "UpdatedBy", "Version"}
  }

  lemma ChangesAt(ops: seq<Change>, a: Args)
    ensures var cs := UpdateChanges(ops, a);
            && |cs| == |ops| + 3
            && cs[0].name == "UpdatedAt" && cs[1].name == "UpdatedBy" && cs[|cs| - 1].name == "Version"
            && forall i | 0 <= i < |ops| :: cs[i + 2] == ops[i]
  {}

  lemma AcceptedChanges(ops: seq<Change>, a: Args)
    requires var cs := UpdateChanges(ops, a);
             DistinctNames(cs) && forall c <- cs :: c.name !in {"", "PK", "SK"}
    ensures OwnChanges(ops)
  {
    ChangesAt(ops, a);
    var cs := UpdateChanges(ops, a);
    forall c <- ops ensures c.name !in {"", "PK", "SK", "UpdatedAt", "UpdatedBy", "Version"} {
      var i :| 0 <= i < |ops| && ops[i] == c;
      assert cs[i + 2] in cs;
      assert cs[0].name != cs[i + 2].name && cs[1].name != cs[i + 2].name && cs[i + 2].name != cs[|cs| - 1].name;
    }
    forall i, j | 0 <= i < j < |ops| ensures ops[i].name != ops[j].name {
      assert cs[i + 2].name != cs[j + 2].name;
    }
  }

  lemma OwnAccepted(ops: seq<Change>, a: Args)
    requires OwnChanges(ops)
    ensures var cs := UpdateChanges(ops, a);
            DistinctNames(cs) && forall c <- cs :: c.name !in {"", "PK", "SK"}
  {
    ChangesAt(ops, a);
    var cs := UpdateChanges(ops, a);
    assert forall i | 2 <= i < |cs| - 1 :: cs[i] == ops[i - 2] && ops[i - 2] in ops;
    forall i, j | 0 <= i < j < |cs| ensures cs[i].name != cs[j].name {}
    forall i | 0 <= i < |cs| ensures cs[i].name !in {"", "PK", "SK"} {}
  }

  /** An update may not name an attribute twice, nor one that Run itself writes, nor a key
      attribute: the service rejects exactly these. */
  lemma UpdateWellFormedIff(t: StructType, id: string, ops: seq<Change>, version: Option<int>, a: Args)
    requires DefaultKey(t)
    ensures WellFormed(UpdateOf(t, id, ops, version, a)) <==> OwnChanges(ops)
  {
    if WellFormed(UpdateOf(t, id, ops, version, a)) { AcceptedChanges(ops, a); }
    if OwnChanges(ops) { OwnAccepted(ops, a); }
  }

  /** The shape of every change list Run sends. */
  predicate RunShape(cs: seq<Change>) {
    && |cs| >= 3
    && cs[0].SetAttr? && cs[0].name == "UpdatedAt" && cs[0].value.N?
    && cs[|cs| - 1] == AddNum("Version", 1)
  }

  lemma UpdateChangesShape(ops: seq<Change>, a: Args)
    ensures RunShape(UpdateChanges(ops, a)) && UpdateChanges(ops, a)[0] == SetAttr("UpdatedAt", N(a.now.instant))
  {}

  /** An accepted update raises the version by one (to 1 on a record it creates) and stamps
      UpdatedAt; attributes it does not name are untouched. */
  lemma UpdateOutcome(was: Option<Attrs>, w: Write, attr: string)
    requires w.UpdateItem? && RunShape(w.changes) && Judge(was, w) == Accepted
    ensures var after := Outcome(was, w).value;
            && VersionOf(after) == Some(if "Version" in ItemOf(was) then ItemOf(was)["Version"].n + 1 else 1)
            && "UpdatedAt" in after && after["UpdatedAt"] == w.changes[0].value
            && ((forall c <- w.changes :: c.name != attr) && was.Some? ==>
                  (attr in after <==> attr in was.value) && (attr in after ==> after[attr] == was.value[attr]))
  {
    var base := if was.Some? then was.value else KeyAttrs(w.key);
    var n := |w.changes| - 1;
    assert AddsToNumbers(base, w.changes) by {
      assert was.None? ==> forall c <- w.changes :: c.name !in base;
    }
    assert w.changes[n].name == "Version" && w.changes[n] in w.changes;
    ChangesApply(base, w.changes, 0);
    ChangesApply(base, w.changes, n);
    if forall c <- w.changes :: c.name != attr { ChangesLeave(base, w.changes, attr); }
  }

  /** An accepted update does what was queued: every Set leaves its value, every Add adds to
      the number that was there or starts from it, and the actor is recorded. */
  lemma UpdateApplies(was: Option<Attrs>, t: StructType, id: string, ops: seq<Change>, version: Option<int>,
                      a: Args, i: nat)
    requires DefaultKey(t) && i < |ops| && Judge(was, UpdateOf(t, id, ops, version, a)) == Accepted
    ensures var after := Outcome(was, UpdateOf(t, id, ops, version, a)).value; var name := ops[i].name;
            && "UpdatedAt" in after && after["UpdatedAt"] == N(a.now.instant)
            && name in after && "UpdatedBy" in after && after["UpdatedBy"] == S(a.actor)
            && after[name] == match ops[i]
                              case SetAttr(_, value) => value
                              case AddNum(_, delta) =>
                                N(if name in ItemOf(was) then ItemOf(was)[name].n + delta else delta)
  {
    var cs := UpdateChanges(ops, a);
    ChangesAt(ops, a);
    assert cs[0] == SetAttr("UpdatedAt", N(a.now.instant)) && cs[1] == SetAttr("UpdatedBy", S(a.actor));
    assert cs[i + 2] == ops[i] && cs[i + 2] in cs;
    ChangesOn(was, IdKey(t, id), cs, VersionGuard(version), 0);
    ChangesOn(was, IdKey(t, id), cs, VersionGuard(version), 1);
    ChangesOn(was, IdKey(t, id), cs, VersionGuard(version), i + 2);
  }

  lemma ChangesOn(was: Option<Attrs>, k: Key, cs: seq<Change>, cond: Cond, i: nat)
    requires i < |cs| && Judge(was, UpdateItem(k, cs, cond)) == Accepted
    ensures var after := Outcome(was, UpdateItem(k, cs, cond)).value; var name := cs[i].name;
            && name in after
            && after[name] == match cs[i]
                              case SetAttr(_, value) => value
                              case AddNum(_, delta) =>
                                N(if name in ItemOf(was) then ItemOf(was)[name].n + delta else delta)
  {
    var base := if was.Some? then was.value else KeyAttrs(k);
    assert cs[i] in cs;
    assert was.None? ==> forall c <- cs :: c.name !in base;
    ChangesApply(base, cs, i);
  }

  /** The additions, and the one Run makes itself, meet numbers or nothing. */
  predicate AddsFit(was: Option<Attrs>, ops: seq<Change>) {
    AddsToNumbers(ItemOf(was), ops) && NumberOk(ItemOf(was), "Version")
  }

  lemma RunAddsFit(was: Option<Attrs>, ops: seq<Change>, a: Args)
    ensures AddsToNumbers(ItemOf(was), UpdateChanges(ops, a)) <==> AddsFit(was, ops)
  {
    ChangesAt(ops, a);
    var cs := UpdateChanges(ops, a);
    if AddsToNumbers(ItemOf(was), cs) {
      assert cs[|cs| - 1] in cs;
      forall c <- ops ensures c in cs {
        var i :| 0 <= i < |ops| && ops[i] == c;
        assert cs[i + 2] == c;
      }
    }
  }

  /** The optimistic lock of an update. With an expected version it is accepted exactly when
      the record is there at that version and the additions meet numbers, and refused exactly
      when the record is missing or at another version. Without one no version refuses it.
      Unless it is accepted nothing is written, and nothing but the record at its key ever is. */
  lemma GuardedUpdate(table: Table, t: StructType, id: string, ops: seq<Change>, version: Option<int>, a: Args)
    requires DefaultKey(t) && OwnChanges(ops)
    ensures var k := IdKey(t, id); var was := Lookup(table, k);
            var (after, reply) := Sent(table, UpdateOf(t, id, ops, version, a), NoFault);
            && (version.Some? ==>
                  && (reply == Done <==> AtVersion(was, version.value) && AddsFit(was, ops))
                  && (reply == Refused <==> !AtVersion(was, version.value)))
            && (version.None? ==> reply != Refused && (reply == Done <==> AddsFit(was, ops)))
            && (reply != Done ==> after == table)
            && (reply == Done ==> k in after && after == table[k := after[k]])
  {
    UpdateWellFormedIff(t, id, ops, version, a);
    RunAddsFit(Lookup(table, IdKey(t, id)), ops, a);
  }

  class UpdateBuilder {
    const t: StructType
    const id: string
    var ops: seq<Change>
    var version: Option<int>

    constructor (t: StructType, id: string)
      ensures this.t == t && this.id == id && ops == [] && version == None
    {
      this.t, this.id, ops, version := t, id, [], None;
    }

    method Set(field: string, value: Value)
      modifies this
      ensures ops == old(ops) + [SetAttr(AttrName(Layout(t), field), value)] && version == old(version)
    {
      var attr := ResolveAttrName(t, field);
      ops := ops + [SetAttr(attr, value)];
    }

    method Add(field: string, delta: int)
      modifies this
      ensures ops == old(ops) + [AddNum(AttrName(Layout(t), field), delta)] && version == old(version)
    {
      var attr := ResolveAttrName(t, field);
      ops := ops + [AddNum(attr, delta)];
    }

    method IfVersion(v: int)
      modifies this
      ensures version == Some(v) && ops == old(ops)
    {
      version := Some(v);
    }

    /** The update expression: the audit fields, the queued operations, the version. */
    method Changes(a: Args) returns (upd: seq<Change>)
      ensures upd == UpdateChanges(ops, a)
    {
      upd := [SetAttr("UpdatedAt", N(a.now.instant)), SetAttr("UpdatedBy", S(a.actor))];
      var base := upd;
      for i := 0 to |ops|
        invariant upd == base + ops[..i]
      {
        upd := upd + [ops[i]];
      }
      assert ops[..|ops|] == ops;
      upd := upd + [AddNum("Version", 1)];
    }

    /** Run; on success the returned item holds the record's new state. */
    method Run(cfg: Config, svc: Service, a: Args, f: Fault) returns (r: Status, item: Item)
      requires svc as object != this as object
      modifies svc
      ensures fresh(item) && item.t == t
      ensures if !DefaultKey(t) then svc.table == old(svc.table) && r == Err(NonDefaultKey)
              else
                var w := UpdateOf(t, id, ops, version, a);
                var (after, reply) := Sent(old(svc.table), w, f);
                && svc.table == after
                && (reply != Done ==> r == StatusOf(reply))
                && (reply == Done ==>
                      var read := Unmarshalled(cfg.codec, after[w.key], ZeroEntity(t, NIL_ID));
                      Read(r == Ok, item.View()) == read && (r != Ok ==> r == Err(Failed)))
      ensures DefaultKey(t) && f != NoFault ==> r == Err(Failed) && (f == LostRequest ==> svc.table == old(svc.table))
      ensures DefaultKey(t) && OwnChanges(ops) && f == NoFault ==>
                var k := IdKey(t, id); var was := Lookup(old(svc.table), k);
                var current := version.Some? ==> AtVersion(was, version.value);
                && (r == Err(OptimisticLock) <==> !current)
                && (r == Ok ==> current && AddsFit(was, ops))
                && if current && AddsFit(was, ops) then
                     && k in svc.table && svc.table == old(svc.table)[k := svc.table[k]]
                     && (r == Ok <==> Unmarshalled(cfg.codec, svc.table[k], ZeroEntity(t, NIL_ID)).ok)
                   else svc.table == old(svc.table)
    {
      if DefaultKey(t) && OwnChanges(ops) { GuardedUpdate(svc.table, t, id, ops, version, a); }
      item := new Item(ZeroEntity(t, NIL_ID));
      if !DefaultKey(t) { return Err(NonDefaultKey), item; }
      var upd := Changes(a);
      var k := IdKey(t, id);
      var reply := svc.Send(UpdateItem(k, upd, VersionGuard(version)), f);
      if reply != Done { return StatusOf(reply), item; }
      var ok := UnmarshalItemInto(cfg.codec, svc.table[k], item);
      r := if ok then Ok else Err(Failed);
    }
  }

  /** What a blind update of a missing record leaves has neither of the attributes that the
      update does not set. */
  lemma UpsertOmits(t: StructType, id: string, ops: seq<Change>, version: Option<int>, a: Args)
    requires DefaultKey(t) && forall c <- ops :: c.name != "ID" && c.name != "CreatedAt"
    ensures var av := Outcome(None, UpdateOf(t, id, ops, version, a)).value; "ID" !in av && "CreatedAt" !in av
  {
    var base, cs := KeyAttrs(IdKey(t, id)), UpdateChanges(ops, a);
    assert forall c <- cs :: c.name != "ID" && c.name != "CreatedAt";
    ChangesLeave(base, cs, "ID");
    ChangesLeave(base, cs, "CreatedAt");
  }

  /** A record without them reads as a new value with no ID. */
  lemma ReadsAsNew(cfg: Config, t: StructType, av: Attrs)
    requires WellFormedType(t) && "ID" !in av && "CreatedAt" !in av
    requires Unmarshalled(cfg.codec, av, ZeroEntity(t, NIL_ID)).ok
    ensures var e := Unmarshalled(cfg.codec, av, ZeroEntity(t, NIL_ID)).e; e.t == t && IsNew(e) && e.id == NIL_ID
  {
    ZeroWellTyped(t, NIL_ID);
    UnmarshalledFieldwise(cfg.codec, av, ZeroEntity(t, NIL_ID));
  }

  lemma PutOfNew(cfg: Config, table: Table, e: Entity, b: Args)
    requires DefaultKey(e.t) && IsNew(e) && e.id == NIL_ID && SealOf(cfg, e, b).Some?
    requires IdKey(e.t, b.freshId) !in table
    ensures var w := SealOf(cfg, e, b).value;
            w.PutItem? && Sent(table, w, NoFault) == (table[IdKey(e.t, b.freshId) := w.item], Done)
  {
    PutIs(cfg, e, b);
    AddressingById(Stamp(e, b));
    CreateAccepted(SealOf(cfg, e, b).value, IdKey(e.t, b.freshId));
  }

  /** Updating an ID that holds no record creates one, by an update that sets neither ID nor
      CreatedAt. A copy read from it counts as new, and putting the copy leaves that record as
      it is and creates another one under a fresh ID. */
  lemma UpsertThenPutForks(cfg: Config, table: Table, t: StructType, id: string, ops: seq<Change>,
                           version: Option<int>, a: Args, b: Args)
    requires WellFormedType(t) && DefaultKey(t) && IdKey(t, id) !in table
    requires forall c <- ops :: c.name != "ID" && c.name != "CreatedAt"
    requires Sent(table, UpdateOf(t, id, ops, version, a), NoFault).1 == Done
    ensures var k := IdKey(t, id); var after := Sent(table, UpdateOf(t, id, ops, version, a), NoFault).0;
            && k in after
            && var r := Unmarshalled(cfg.codec, after[k], ZeroEntity(t, NIL_ID));
               r.ok ==>
                 && r.e.t == t && IsNew(r.e)
                 && (SealOf(cfg, r.e, b).Some? && IdKey(t, b.freshId) !in after ==>
                       var w := SealOf(cfg, r.e, b).value;
                       w.PutItem? && Sent(after, w, NoFault) == (after[IdKey(t, b.freshId) := w.item], Done))
  {
    var k := IdKey(t, id);
    var after := Sent(table, UpdateOf(t, id, ops, version, a), NoFault).0;
    UpsertOmits(t, id, ops, version, a);
    var r := Unmarshalled(cfg.codec, after[k], ZeroEntity(t, NIL_ID));
    if r.ok {
      ReadsAsNew(cfg, t, after[k]);
      if SealOf(cfg, r.e, b).Some? && IdKey(t, b.freshId) !in after { PutOfNew(cfg, after, r.e, b); }
    }
  }
}
