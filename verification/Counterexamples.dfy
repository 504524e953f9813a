/** Runs in which a put does not do what a caller might expect of it: a re-sent pointer, a stale
    pointer to a key that was deleted and created again, a key that lists a time, and an edit
    that moves a key onto another record. */
module Counterexamples {
  import opened Text
  import opened Store
  import opened Tags
  import opened Model
  import opened Keys
  import opened Compress
  import opened Crud
  import opened OwnKeys
  import opened History
  import opened Protocol
  import opened Steps
  import MovedPuts

  // ----- Types without fields of their own -----

  /** A value whose struct has no fields besides the embedded Model. */
  predicate Bare(e: Entity) {
    e.t.fields == [] && e.fields == map[]
  }

  lemma BareSealed(cfg: Config, e: Entity, a: Args)
    requires ValidConfig(cfg) && Bare(e) && Keyable(e)
    ensures SealOf(cfg, e, a).Some? && Keyable(Stamp(e, a))
    ensures var w := SealOf(cfg, e, a).value;
            && w.PutItem? && w.cond == GuardOf(e) && Target(w) == Some(EntityKey(Stamp(e, a)))
            && HoldsModel(w.item, Stamp(e, a))
  {
    assert Layout(e.t) == [];
    StampKeeps(cfg, e, a);
    var s := Stamp(e, a);
    PackSucceeds(cfg.codec, Layout(s.t), s.fields, MarshalMap(Layout(s.t), s));
    PutIs(cfg, e, a);
    SealHolds(cfg, e, a);
  }

  /** The value as storage gives it back. */
  function Back(codec: Codec, e: Entity): Entity {
    e.(createdAt := StoredTime(codec, e.createdAt.instant), updatedAt := StoredTime(codec, e.updatedAt.instant))
  }

  lemma BareRead(codec: Codec, av: Attrs, e: Entity)
    requires Bare(e) && HoldsModel(av, e)
    ensures WellFormedType(e.t) && Unmarshalled(codec, av, ZeroEntity(e.t, NIL_ID)) == Read(true, Back(codec, e))
  {
    assert Layout(e.t) == [];
    ZeroWellTyped(e.t, NIL_ID);
    UnmarshalledFieldwise(codec, av, ZeroEntity(e.t, NIL_ID));
    assert Unmarshalled(codec, av, ZeroEntity(e.t, NIL_ID)).e.fields == e.fields;
  }

  // ----- Creating and reading one record -----

  /** The log's last commit is the record at k, which is the given stored value. */
  ghost predicate Holds1(s: State, k: Key, e: Entity, at: nat) {
    && k in s.table && s.table.Keys == {k} && HoldsModel(s.table[k], e)
    && |s.log| == at + 1 && s.log[at].key == k && s.log[at].after == Some(s.table[k])
  }

  lemma LatestLast(log: Log, k: Key)
    requires log != [] && log[|log| - 1].key == k
    ensures Latest(log, k) == |log| - 1
  {}

  lemma BareCreate(cfg: Config, actions: seq<Action>, c: nat, e: Entity, a: Args, k: Key)
    requires ValidConfig(cfg) && Bare(e) && Keyable(e) && IsNew(e) && k == EntityKey(Stamp(e, a))
    requires Run(cfg, actions).table == map[]
    ensures var s, s' := Run(cfg, actions), Run(cfg, actions + CreateActions(c, e, a));
            && Holds1(s', k, Stamp(e, a), |s.log|) && s'.log[..|s.log|] == s.log
            && forall d <- s.copies | d != c :: d in s'.copies && s'.copies[d] == s.copies[d]
  {
    BareSealed(cfg, e, a);
    CreateRun(cfg, actions, c, e, a, k);
  }

  /** The copy a client holds of it. */
  function HeldCopy(cfg: Config, s: State, k: Key, e: Entity): Copy
    requires k in s.table && s.log != []
  {
    Copy(Back(cfg.codec, e), Some(Origin(k, |s.log| - 1, s.table[k])), true)
  }

  lemma BareReadRun(cfg: Config, actions: seq<Action>, c: nat, k: Key, e: Entity, at: nat)
    requires Bare(e) && Holds1(Run(cfg, actions), k, e, at)
    ensures var s := Run(cfg, actions);
            Run(cfg, actions + [ReadCopy(c, e.t, k)]) == s.(copies := s.copies[c := HeldCopy(cfg, s, k, e)])
  {
    var s := Run(cfg, actions);
    LatestLast(s.log, k);
    BareRead(cfg.codec, s.table[k], e);
    ReadRun(cfg, actions, c, e.t, k);
  }

  /** The copy can be put back to the key. */
  ghost predicate PutsTo(cfg: Config, s: State, c: nat, b: Args, k: Key) {
    && ValidConfig(cfg) && c in s.copies
    && Bare(s.copies[c].e) && Keyable(s.copies[c].e) && !IsNew(s.copies[c].e)
    && Keyable(Stamp(s.copies[c].e, b)) && EntityKey(Stamp(s.copies[c].e, b)) == k
  }

  lemma PutsToSealed(cfg: Config, s: State, c: nat, b: Args, k: Key)
    requires PutsTo(cfg, s, c, b, k)
    ensures SealOf(cfg, s.copies[c].e, b).Some?
    ensures var w := SealOf(cfg, s.copies[c].e, b).value;
            && w.PutItem? && Expected(w) == Some(s.copies[c].e.version) && Target(w) == Some(k)
            && HoldsModel(w.item, Stamp(s.copies[c].e, b))
            && forall t: Table :: Admits(t, w) <==> k in t && VersionOf(t[k]) == Some(s.copies[c].e.version)
  {
    BareSealed(cfg, s.copies[c].e, b);
  }

  /** Putting a copy back to the record's own key: accepted exactly at the version it holds. */
  lemma BareRePut(cfg: Config, actions: seq<Action>, c: nat, r: nat, b: Args, k: Key, now: Entity, at: nat)
    requires var s := Run(cfg, actions); Holds1(s, k, now, at) && PutsTo(cfg, s, c, b, k)
    ensures var s, s' := Run(cfg, actions), Run(cfg, actions + PutActions(c, r, b));
            var copy := s.copies[c];
            && SealOf(cfg, copy.e, b).Some?
            && var x := PutEntry(cfg, copy, c, b); var sent := PutSent(cfg, s, c, r, b);
               && x.w.PutItem? && Expected(x.w) == Some(copy.e.version)
               && if copy.e.version == now.version then
                    && s' == sent.(table := s.table[k := x.w.item], log := s.log + [Commit(k, x, Some(x.w.item))])
                    && Holds1(s', k, Stamp(copy.e, b), at + 1)
                  else s' == sent
  {
    var s := Run(cfg, actions);
    PutsToSealed(cfg, s, c, b, k);
    if s.copies[c].e.version == now.version {
      PutAccepted(cfg, actions, c, r, b, k, PutEntry(cfg, s.copies[c], c, b));
    } else {
      PutRefused(cfg, actions, c, r, b);
    }
  }

  // ----- A refused pointer sent again -----

  const PLAIN := StructType("Item", None, [])

  lemma PlainKey(e: Entity)
    requires e.t == PLAIN
    ensures DefaultKey(PLAIN) && Keyable(e) && EntityKey(e) == IdKey(PLAIN, e.id)
  {
    AddressingById(e);
  }

  /** A record is created and client 1 reads it. */
  function OneReader(id: string, a: Args): seq<Action>
    requires DefaultKey(PLAIN)
  {
    CreateActions(0, ZeroEntity(PLAIN, id), a) + [ReadCopy(1, PLAIN, IdKey(PLAIN, id))]
  }

  lemma OneReaderHolds(cfg: Config, id: string, a: Args)
    requires ValidConfig(cfg) && id != NIL_ID
    ensures DefaultKey(PLAIN)
    ensures var s, k, e := Run(cfg, OneReader(id, a)), IdKey(PLAIN, id), Stamp(ZeroEntity(PLAIN, id), a);
            Bare(e) && Holds1(s, k, e, 0) && 1 in s.copies && s.copies[1] == HeldCopy(cfg, s, k, e)
  {
    var e := ZeroEntity(PLAIN, id);
    assert Layout(PLAIN) == [];
    PlainKey(e);
    PlainKey(Stamp(e, a));
    var k, create := IdKey(PLAIN, id), CreateActions(0, e, a);
    assert [] + create == create;
    BareCreate(cfg, [], 0, e, a, k);
    BareReadRun(cfg, create, 1, k, Stamp(e, a), 0);
  }

  /** Then client 2 reads it too. */
  function TwoReaders(id: string, a: Args): seq<Action>
    requires DefaultKey(PLAIN)
  {
    OneReader(id, a) + [ReadCopy(2, PLAIN, IdKey(PLAIN, id))]
  }

  /** What each of them holds. */
  ghost predicate BothHold(cfg: Config, s: State, k: Key, e: Entity) {
    && Holds1(s, k, e, 0) && 1 in s.copies && 2 in s.copies
    && s.copies[1] == HeldCopy(cfg, s, k, e) && s.copies[2] == HeldCopy(cfg, s, k, e)
  }

  lemma TwoReadersHold(cfg: Config, id: string, a: Args)
    requires ValidConfig(cfg) && id != NIL_ID
    ensures DefaultKey(PLAIN)
    ensures BothHold(cfg, Run(cfg, TwoReaders(id, a)), IdKey(PLAIN, id), Stamp(ZeroEntity(PLAIN, id), a))
  {
    OneReaderHolds(cfg, id, a);
    BareReadRun(cfg, OneReader(id, a), 2, IdKey(PLAIN, id), Stamp(ZeroEntity(PLAIN, id), a), 0);
  }

  /** Client 1 puts its copy, client 2 puts its own, is refused, and sends it again. */
  function ResentActions(id: string, a: Args, b: Args, c: Args, d: Args): seq<Action>
    requires DefaultKey(PLAIN)
  {
    TwoReaders(id, a) + PutActions(1, 1, b) + PutActions(2, 2, c) + PutActions(2, 3, d)
  }

  /** The put at i overwrites another client's put, which was made after its own read, though
      it went to the key it was read from and nothing was deleted; it was not the first send. */
  ghost predicate OverwritesByResend(log: Log, i: nat, o: Origin) {
    && 0 < i < |log| && log[i].entry.w.PutItem? && log[i].entry.basis == Some(o) && o.key == log[i].key
    && !DeletedSince(log[..i], o.key, o.at)
    && log[i].entry.source.Some? && log[i - 1].entry.source.Some? && !log[i].entry.source.value.first
    && log[i - 1].entry.source.value.copy != log[i].entry.source.value.copy
    && o.at < i - 1 == Latest(log[..i], o.key) && !Replaces(log, i, o)
  }

  /** What client 2 holds after the refusal: the copy it read, stamped, and no longer clean. */
  ghost predicate Stale(cfg: Config, s: State, k: Key, e: Entity, seen: Attrs, c: Args) {
    && |s.log| == 2 && s.log[1].entry.source.Some? && s.log[1].entry.source.value.copy == 1
    && s.log[0].key == k && s.log[0].after.Some?
    && 2 in s.copies && s.copies[2] == Copy(Stamp(Back(cfg.codec, e), c), Some(Origin(k, 0, seen)), false)
  }

  lemma PlainCopy(cfg: Config, id: string, a: Args, b: Args)
    requires a.now.instant != ZERO_INSTANT && id != NIL_ID
    ensures var e := Back(cfg.codec, Stamp(ZeroEntity(PLAIN, id), a));
            && Bare(e) && !IsNew(e) && e.id == id && e.version == 1
            && Bare(Stamp(e, b)) && !IsNew(Stamp(e, b)) && Stamp(e, b).id == id && Stamp(e, b).version == 2
  {
    assert Layout(PLAIN) == [];
  }

  lemma FirstPut(cfg: Config, actions: seq<Action>, k: Key, e: Entity, b: Args)
    requires ValidConfig(cfg) && BothHold(cfg, Run(cfg, actions), k, e)
    requires var copy := Back(cfg.codec, e);
             && Bare(copy) && !IsNew(copy) && Keyable(copy)
             && Keyable(Stamp(copy, b)) && EntityKey(Stamp(copy, b)) == k
    ensures var s, s' := Run(cfg, actions), Run(cfg, actions + PutActions(1, 1, b));
            && Holds1(s', k, Stamp(Back(cfg.codec, e), b), 1) && s'.log[0] == s.log[0]
            && s'.log[1].entry.source.Some? && s'.log[1].entry.source.value.copy == 1
            && 2 in s'.copies && s'.copies[2] == s.copies[2]
  {
    BareRePut(cfg, actions, 1, 1, b, k, e, 0);
  }

  lemma SecondRefused(cfg: Config, actions: seq<Action>, k: Key, e: Entity, seen: Attrs, now: Entity, c: Args)
    requires var s := Run(cfg, actions);
             && ValidConfig(cfg) && Holds1(s, k, now, 1) && 2 in s.copies
             && s.copies[2] == Copy(Back(cfg.codec, e), Some(Origin(k, 0, seen)), true)
             && s.log[1].entry.source.Some? && s.log[1].entry.source.value.copy == 1
             && s.log[0].key == k && s.log[0].after.Some?
    requires var copy := Back(cfg.codec, e);
             && Bare(copy) && !IsNew(copy) && Keyable(copy) && copy.version != now.version
             && Keyable(Stamp(copy, c)) && EntityKey(Stamp(copy, c)) == k
    ensures var s' := Run(cfg, actions + PutActions(2, 2, c));
            Holds1(s', k, now, 1) && s'.log == Run(cfg, actions).log && Stale(cfg, s', k, e, seen, c)
  {
    BareRePut(cfg, actions, 2, 2, c, k, now, 1);
  }

  lemma ResendWins(cfg: Config, actions: seq<Action>, k: Key, e: Entity, seen: Attrs, now: Entity, c: Args, d: Args)
    requires var s := Run(cfg, actions); ValidConfig(cfg) && Holds1(s, k, now, 1) && Stale(cfg, s, k, e, seen, c)
    requires var copy := Stamp(Back(cfg.codec, e), c);
             && Bare(copy) && !IsNew(copy) && Keyable(copy) && copy.version == now.version
             && Keyable(Stamp(copy, d)) && EntityKey(Stamp(copy, d)) == k
    ensures var log := Run(cfg, actions + PutActions(2, 3, d)).log;
            |log| == 3 && OverwritesByResend(log, 2, Origin(k, 0, seen))
  {
    var s := Run(cfg, actions);
    BareRePut(cfg, actions, 2, 3, d, k, now, 1);
    var x := PutEntry(cfg, s.copies[2], 2, d);
    ResendLog(s.log, Commit(k, x, Some(x.w.item)), Origin(k, 0, seen));
  }

  lemma ResendLog(log: Log, x: Commit, o: Origin)
    requires |log| == 2 && log[1].key == x.key == o.key && log[1].after.Some? && o.at == 0
    requires log[1].entry.source.Some? && log[1].entry.source.value.copy == 1
    requires x.entry.w.PutItem? && x.entry.basis == Some(o)
    requires x.entry.source.Some? && x.entry.source.value.copy == 2 && !x.entry.source.value.first
    ensures OverwritesByResend(log + [x], 2, o)
  {
    LatestLast(log, o.key);
    assert (log + [x])[..2] == log;
  }

  /** No lost update fails in this run: client 2's put is refused, and sent again it overwrites
      client 1's put, for it now expects the version that client 1 wrote. */
  lemma ResentRun(cfg: Config, id: string, a: Args, b: Args, c: Args, d: Args)
    requires ValidConfig(cfg) && id != NIL_ID && a.now.instant != ZERO_INSTANT
    ensures DefaultKey(PLAIN)
    ensures var log := Run(cfg, ResentActions(id, a, b, c, d)).log;
            |log| == 3 && log[2].entry.basis.Some? && OverwritesByResend(log, 2, log[2].entry.basis.value)
  {
    TwoReadersHold(cfg, id, a);
    var e, k, first := Stamp(ZeroEntity(PLAIN, id), a), IdKey(PLAIN, id), TwoReaders(id, a);
    var copy := Back(cfg.codec, e);
    var seen := Run(cfg, first).table[k];
    PlainCopy(cfg, id, a, b);
    PlainCopy(cfg, id, a, c);
    PlainKey(copy);
    PlainKey(Stamp(copy, b));
    PlainKey(Stamp(copy, c));
    PlainKey(Stamp(Stamp(copy, c), d));
    FirstPut(cfg, first, k, e, b);
    SecondRefused(cfg, first + PutActions(1, 1, b), k, e, seen, Stamp(copy, b), c);
    ResendWins(cfg, first + PutActions(1, 1, b) + PutActions(2, 2, c), k, e, seen, Stamp(copy, b), c, d);
  }

  // ----- A key that was deleted and created again -----

  /** Client 1 reads a record, which is deleted and created again before client 1 puts. */
  function RecreatedActions(id: string, a: Args, b: Args, c: Args): seq<Action>
    requires DefaultKey(PLAIN)
  {
    OneReader(id, a) + DeleteActions(2, PLAIN, IdKey(PLAIN, id)) + CreateActions(3, ZeroEntity(PLAIN, id), b)
    + PutActions(1, 1, c)
  }

  /** The put at i is the first send of its copy and expects the version it read at the key it
      read, but overwrites a record that was created after its own was deleted. */
  ghost predicate OverwritesRecreated(log: Log, i: nat, o: Origin) {
    && 0 < i < |log| && log[i].entry.w.PutItem? && log[i].entry.basis == Some(o) && o.key == log[i].key
    && log[i].entry.source.Some? && log[i].entry.source.value.first
    && Expected(log[i].entry.w).Some? && Expected(log[i].entry.w) == VersionOf(o.seen)
    && DeletedSince(log[..i], o.key, o.at) && o.at < i - 1 == Latest(log[..i], o.key) && !Replaces(log, i, o)
  }

  /** Client 1 holds what it read while another record sits at the key. */
  ghost predicate Outlived(cfg: Config, s: State, k: Key, e: Entity, seen: Attrs) {
    && |s.log| == 3 && s.log[1].key == k && s.log[1].after.None? && HoldsModel(seen, e)
    && 1 in s.copies && s.copies[1] == Copy(Back(cfg.codec, e), Some(Origin(k, 0, seen)), true)
  }

  lemma Recreated(cfg: Config, actions: seq<Action>, fresh': Entity, e: Entity, b: Args, k: Key)
    requires var s := Run(cfg, actions);
             && ValidConfig(cfg) && Holds1(s, k, e, 0) && 1 in s.copies && s.copies[1] == HeldCopy(cfg, s, k, e)
    requires Bare(fresh') && IsNew(fresh') && Keyable(fresh') && Keyable(Stamp(fresh', b))
    requires k == EntityKey(Stamp(fresh', b))
    ensures var s, s' := Run(cfg, actions), Run(cfg, actions + DeleteActions(2, e.t, k) + CreateActions(3, fresh', b));
            Holds1(s', k, Stamp(fresh', b), 2) && Outlived(cfg, s', k, e, s.table[k])
  {
    DeleteRun(cfg, actions, 2, e.t, k);
    var gone := actions + DeleteActions(2, e.t, k);
    assert Run(cfg, gone).table == map[];
    BareCreate(cfg, gone, 3, fresh', b, k);
    var log := Run(cfg, gone + CreateActions(3, fresh', b)).log;
    assert log[..2][1] == log[1];
  }

  lemma StalePut(cfg: Config, actions: seq<Action>, k: Key, e: Entity, seen: Attrs, now: Entity, c: Args)
    requires var s := Run(cfg, actions); ValidConfig(cfg) && Holds1(s, k, now, 2) && Outlived(cfg, s, k, e, seen)
    requires var copy := Back(cfg.codec, e);
             && Bare(copy) && !IsNew(copy) && Keyable(copy) && copy.version == now.version
             && Keyable(Stamp(copy, c)) && EntityKey(Stamp(copy, c)) == k
    ensures var log := Run(cfg, actions + PutActions(1, 1, c)).log;
            |log| == 4 && OverwritesRecreated(log, 3, Origin(k, 0, seen))
  {
    var s := Run(cfg, actions);
    BareRePut(cfg, actions, 1, 1, c, k, now, 2);
    var x := PutEntry(cfg, s.copies[1], 1, c);
    StaleLog(s.log, Commit(k, x, Some(x.w.item)), Origin(k, 0, seen));
  }

  lemma StaleLog(log: Log, x: Commit, o: Origin)
    requires |log| == 3 && log[1].key == log[2].key == x.key == o.key && log[1].after.None? && o.at == 0
    requires x.entry.w.PutItem? && x.entry.basis == Some(o)
    requires Expected(x.entry.w).Some? && Expected(x.entry.w) == VersionOf(o.seen)
    requires x.entry.source.Some? && x.entry.source.value.first
    ensures OverwritesRecreated(log + [x], 3, o)
  {
    LatestLast(log, o.key);
    assert (log + [x])[..3] == log;
    assert log[1].key == o.key && log[1].after.None?;
  }

  /** No lost update fails in this run too: version 1 of the new record passes for version 1
      of the old one. */
  lemma RecreatedRun(cfg: Config, id: string, a: Args, b: Args, c: Args)
    requires ValidConfig(cfg) && id != NIL_ID && a.now.instant != ZERO_INSTANT
    ensures DefaultKey(PLAIN)
    ensures var log := Run(cfg, RecreatedActions(id, a, b, c)).log;
            |log| == 4 && log[3].entry.basis.Some? && OverwritesRecreated(log, 3, log[3].entry.basis.value)
  {
    var zero := ZeroEntity(PLAIN, id);
    var e, now := Stamp(zero, a), Stamp(zero, b);
    OneReaderHolds(cfg, id, a);
    PlainKey(zero);
    PlainKey(now);
    var k, read := IdKey(PLAIN, id), OneReader(id, a);
    var seen := Run(cfg, read).table[k];
    Recreated(cfg, read, zero, e, b, k);
    PlainCopy(cfg, id, a, c);
    PlainKey(Back(cfg.codec, e));
    PlainKey(Stamp(Back(cfg.codec, e), c));
    StalePut(cfg, read + DeleteActions(2, PLAIN, k) + CreateActions(3, zero, b), k, e, seen, now, c);
  }

  // ----- A key that lists a time -----

  const EVENT := StructType("Event", Some("sk:CreatedAt"), [])

  /** A tag with one sort-key field. */
  lemma OneSortField(n: string)
    requires n != "" && Tight(n) && Free(n, ',') && Free(n, ';')
    ensures ModelClauses(Some("sk:" + n)) == Clauses([], [n])
  {
    var key, slots := Padded("", "sk", ""), [Padded("", n, "")];
    var cs := [Fields(key, slots)];
    OneSlot(n);
    assert cs[0].Valid() by { SkWord(); }
    assert cs[0].Text() == key.Text() + ":" + n == "sk:" + n;
    assert ClauseTexts(cs) == ["sk:" + n];
    ParseOfRender(cs);
    assert cs[..0] == [];
  }

  lemma SkWord()
    ensures Tight("sk") && Free("sk", ':') && Free("sk", ';')
    ensures Padded("", "sk", "").Text() == "sk"
  {}

  lemma OneSlot(n: string)
    requires n != ""
    ensures var slots := [Padded("", n, "")];
            SlotTexts(slots) == [n] && Named(slots) == [n] && Join(SlotTexts(slots), ',') == n
  {
    var slots := [Padded("", n, "")];
    assert slots[0].Text() == n;
    assert SlotTexts(slots) == [n];
    assert slots[1..] == [];
  }

  lemma CreatedAtWord()
    ensures Tight("CreatedAt") && Free("CreatedAt", ',') && Free("CreatedAt", ';')
  {}

  lemma EventTag()
    ensures EVENT.modelTag == Some("sk:" + "CreatedAt")
  {
    assert "sk:" + "CreatedAt" == "sk:CreatedAt";
  }

  lemma EventClauses()
    ensures PkFields(EVENT) == ["ID"] && SkFields(EVENT) == ["CreatedAt", "ID"]
  {
    CreatedAtWord();
    EventTag();
    OneSortField("CreatedAt");
  }

  lemma KeyFieldTexts(e: Entity)
    ensures HasField(e, "ID") && FieldText(e, "ID") == e.id
    ensures HasField(e, "CreatedAt") && FieldText(e, "CreatedAt") == e.createdAt.text
  {}

  /** A key of a field and the ID. */
  lemma TwoPartKey(e: Entity, n: string)
    requires HasField(e, n)
    ensures KeyText(e, [n, "ID"]) == e.t.name + ['#'] + (FieldText(e, n) + (['#'] + e.id))
  {
    KeyFieldTexts(e);
    var texts := [FieldText(e, n), e.id];
    assert Texts(e, [n, "ID"]) == texts;
    KeyStartsWithName(e, [n, "ID"]);
    assert texts[1..] == [e.id] && Join(texts, '#') == FieldText(e, n) + (['#'] + e.id);
  }

  /** The keys of an event: what CreatedAt prints is part of the sort key. */
  lemma EventKey(e: Entity)
    requires e.t == EVENT
    ensures Keyable(e) && PK(e) == KeyText(e, ["ID"])
    ensures SK(e) == EVENT.name + ['#'] + (e.createdAt.text + (['#'] + e.id))
  {
    EventClauses();
    KeyFieldTexts(e);
    TwoPartKey(e, "CreatedAt");
  }

  lemma EventKeysDiffer(d: Entity, e: Entity)
    requires d.t == EVENT && e.t == EVENT && d.id == e.id
    ensures Keyable(d) && Keyable(e) && (EntityKey(d) == EntityKey(e) <==> d.createdAt.text == e.createdAt.text)
  {
    EventKey(d);
    EventKey(e);
    OnlyIdTexts(d, e, ["ID"]);
    SameMiddle(EVENT.name + ['#'], d.createdAt.text, e.createdAt.text, ['#'] + e.id);
  }

  lemma SameMiddle(front: string, x: string, y: string, back: string)
    ensures front + (x + back) == front + (y + back) <==> x == y
  {
    var p, q := front + (x + back), front + (y + back);
    if p == q {
      assert p[|front|..] == x + back && q[|front|..] == y + back;
      assert |x| == |y|;
      assert (x + back)[..|x|] == x && (y + back)[..|y|] == y;
    }
  }

  /** An event is created, read, and put back as it was read. */
  function EventActions(id: string, a: Args, b: Args, k: Key): seq<Action> {
    CreateActions(0, ZeroEntity(EVENT, id), a) + [ReadCopy(1, EVENT, k)] + PutActions(1, 1, b)
  }

  /** A re-put to a key without a record. */
  lemma EventMisses(cfg: Config, t: Table, e: Entity, a: Args)
    requires ValidConfig(cfg) && Bare(e) && Keyable(e) && !IsNew(e)
    requires Keyable(Stamp(e, a)) && EntityKey(Stamp(e, a)) !in t
    ensures SealOf(cfg, e, a).Some? && !Admits(t, SealOf(cfg, e, a).value)
  {
    BareSealed(cfg, e, a);
  }

  /** Putting back the event a client has read. */
  lemma EventPut(cfg: Config, actions: seq<Action>, e: Entity, b: Args, k: Key)
    requires var s := Run(cfg, actions);
             ValidConfig(cfg) && Holds1(s, k, e, 0) && 1 in s.copies && s.copies[1] == HeldCopy(cfg, s, k, e)
    requires e.t == EVENT && Bare(e) && e.createdAt.instant != ZERO_INSTANT && Keyable(e) && k == EntityKey(e)
    ensures Keyable(Back(cfg.codec, e))
    ensures var s, s' := Run(cfg, actions), Run(cfg, actions + PutActions(1, 1, b));
            && (|s'.log| == 2 <==> cfg.codec.timeText(e.createdAt.instant) == e.createdAt.text)
            && (|s'.log| != 2 ==>
                  s'.log == s.log && s'.table == s.table && EntityKey(Back(cfg.codec, e)) !in s.table)
  {
    var s, copy := Run(cfg, actions), Back(cfg.codec, e);
    EventKeysDiffer(copy, e);
    EventKeysDiffer(Stamp(copy, b), copy);
    if cfg.codec.timeText(e.createdAt.instant) == e.createdAt.text {
      BareRePut(cfg, actions, 1, 1, b, k, e, 0);
    } else {
      EventMisses(cfg, s.table, copy, b);
      PutRefused(cfg, actions, 1, 1, b);
    }
  }

  lemma EventRead(cfg: Config, id: string, a: Args, k: Key)
    requires ValidConfig(cfg) && id != NIL_ID && a.now.instant != ZERO_INSTANT
    requires var e := Stamp(ZeroEntity(EVENT, id), a); Keyable(e) && k == EntityKey(e)
    ensures var e := Stamp(ZeroEntity(EVENT, id), a);
            var s := Run(cfg, CreateActions(0, ZeroEntity(EVENT, id), a) + [ReadCopy(1, EVENT, k)]);
            Holds1(s, k, e, 0) && 1 in s.copies && s.copies[1] == HeldCopy(cfg, s, k, e)
  {
    var zero := ZeroEntity(EVENT, id);
    assert Layout(EVENT) == [];
    EventKey(zero);
    var create := CreateActions(0, zero, a);
    assert [] + create == create;
    BareCreate(cfg, [], 0, zero, a, k);
    BareReadRun(cfg, create, 1, k, Stamp(zero, a), 0);
  }

  /** A type whose sort key lists CreatedAt: the put of a copy that was read and not changed is
      accepted if and only if the time prints after reading as it did when it was stamped. If it
      does not, nothing is written, and the copy's own key, which a transactional delete of it
      would address, holds no record. */
  lemma TimeKeyRun(cfg: Config, id: string, a: Args, b: Args)
    requires ValidConfig(cfg) && id != NIL_ID && a.now.instant != ZERO_INSTANT
    ensures var e := Stamp(ZeroEntity(EVENT, id), a); var copy := Back(cfg.codec, e);
            && Keyable(e) && Keyable(copy)
            && var k := EntityKey(e); var s := Run(cfg, EventActions(id, a, b, k));
               && (|s.log| == 2 <==> cfg.codec.timeText(a.now.instant) == a.now.text)
               && (|s.log| != 2 ==> |s.log| == 1 && s.table.Keys == {k} && EntityKey(copy) !in s.table)
  {
    var e := Stamp(ZeroEntity(EVENT, id), a);
    assert Layout(EVENT) == [];
    EventKey(e);
    var k := EntityKey(e);
    EventRead(cfg, id, a, k);
    EventPut(cfg, CreateActions(0, ZeroEntity(EVENT, id), a) + [ReadCopy(1, EVENT, k)], e, b, k);
  }

  // ----- An edit that moves a key -----

  const ZONE := "Zone"

  const SITE := StructType("Site", Some("sk:Zone"), [StructField(ZONE, None, None, S(""))])

  const ZONE_FIELD := Field(ZONE, ZONE, false, false, S(""))

  lemma ZoneWord()
    ensures Tight(ZONE) && Free(ZONE, ',') && Free(ZONE, ';') && !ModelName(ZONE)
  {}

  lemma SiteTag()
    ensures SITE.modelTag == Some("sk:" + ZONE)
  {
    assert "sk:" + ZONE == "sk:Zone";
  }

  lemma SiteClauses()
    ensures PkFields(SITE) == ["ID"] && SkFields(SITE) == [ZONE, "ID"]
    ensures Layout(SITE) == [ZONE_FIELD] && WellFormedType(SITE)
  {
    ZoneWord();
    SiteTag();
    OneSortField(ZONE);
    assert FieldOf(SITE.fields[0]) == ZONE_FIELD;
  }

  /** A value of the type. */
  predicate SiteIn(e: Entity, zone: string) {
    e.t == SITE && e.fields == map[ZONE := S(zone)]
  }

  function NewSite(id: string, zone: string): Entity {
    ZeroEntity(SITE, id).(fields := map[ZONE := S(zone)])
  }

  lemma SiteTyped(e: Entity, zone: string)
    requires SiteIn(e, zone)
    ensures WellTyped(e) && Keyable(e)
    ensures PK(e) == KeyText(e, ["ID"]) && SK(e) == SITE.name + ['#'] + (zone + (['#'] + e.id))
  {
    SiteClauses();
    ZoneWord();
    KeyFieldTexts(e);
    TwoPartKey(e, ZONE);
    assert NamesOf(Layout(SITE)) == {ZONE};
  }

  /** The key of a site depends on its ID and its zone only. */
  lemma SiteKeys(d: Entity, zone: string, e: Entity, zone': string)
    requires SiteIn(d, zone) && SiteIn(e, zone') && d.id == e.id
    ensures Keyable(d) && Keyable(e) && (EntityKey(d) == EntityKey(e) <==> zone == zone')
  {
    SiteTyped(d, zone);
    SiteTyped(e, zone');
    OnlyIdTexts(d, e, ["ID"]);
    SameMiddle(SITE.name + ['#'], zone, zone', ['#'] + e.id);
  }

  lemma SiteSealed(cfg: Config, e: Entity, zone: string, a: Args)
    requires ValidConfig(cfg) && cfg.gsi1PKAttr != ZONE && SiteIn(e, zone)
    ensures SealOf(cfg, e, a).Some? && SiteIn(Stamp(e, a), zone)
    ensures Keyable(Stamp(e, a)) && Target(SealOf(cfg, e, a).value) == Some(EntityKey(Stamp(e, a)))
  {
    SiteTyped(e, zone);
    SiteClauses();
    assert Putable(cfg, e);
    SealedIff(cfg, e, a);
    PutIs(cfg, e, a);
  }

  lemma SiteBack(codec: Codec, e: Entity, zone: string, zone': string)
    requires SiteIn(e, zone)
    ensures WellTyped(e) && var moved := Kept(codec, e).(fields := map[ZONE := S(zone')]);
                            SiteIn(moved, zone') && moved.id == e.id
  {
    SiteTyped(e, zone);
  }

  /** Two sites with one ID in two zones; a client reads the first, sets its zone to the other's
      and puts it. The second site is overwritten, though nobody read it. */
  lemma SiteRun(cfg: Config, id: string, zone: string, zone': string, a: Args, b: Args, c: Args)
    requires ValidConfig(cfg) && cfg.gsi1PKAttr != ZONE && Faithful(cfg.codec)
    requires id != NIL_ID && zone != zone' && a.now.instant != ZERO_INSTANT
    ensures Keyable(Stamp(NewSite(id, zone), a)) && Keyable(Stamp(NewSite(id, zone'), b))
    ensures var k, k' := EntityKey(Stamp(NewSite(id, zone), a)), EntityKey(Stamp(NewSite(id, zone'), b));
            var log := Run(cfg, MovedPuts.MoveActions(NewSite(id, zone), NewSite(id, zone'), a, b, k)
                                + PutActions(2, 2, c)).log;
            |log| == 3 && log[2].entry.basis.Some? && MovedPuts.OverwritesUnread(log, 2, k', log[2].entry.basis.value)
  {
    var e, other := NewSite(id, zone), NewSite(id, zone');
    SiteSealed(cfg, e, zone, a);
    SiteSealed(cfg, other, zone', b);
    SiteKeys(Stamp(e, a), zone, Stamp(other, b), zone');
    SiteBack(cfg.codec, Stamp(e, a), zone, zone');
    var moved := Kept(cfg.codec, Stamp(e, a)).(fields := other.fields);
    SiteSealed(cfg, moved, zone', c);
    SiteKeys(Stamp(moved, c), zone', Stamp(other, b), zone');
    MovedPuts.MovedPutRun(cfg, e, other, a, b, c, EntityKey(Stamp(e, a)), EntityKey(Stamp(other, b)));
  }
}
