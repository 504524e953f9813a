/** The committed writes of a table in order, and what the versioning protocol makes of them. */
module History {
  import opened Text
  import opened Store
  import opened Tags
  import opened Model
  import opened Crud

  /** A read that a write relies on: the key, the commit that was read, and its contents. */
  datatype Origin = Origin(key: Key, at: nat, seen: Attrs)

  /** A request entry, with the read behind it and, for a put, the copy it was stamped from. */
  datatype Entry = Entry(w: Write, t: StructType, basis: Option<Origin>, source: Option<Source>)

  /** The copy a put was stamped from, its stamped value, and whether this was the copy's
      first send since it was read. */
  datatype Source = Source(copy: nat, stamped: Entity, first: bool)

  datatype Commit = Commit(key: Key, entry: Entry, after: Option<Attrs>)

  type Log = seq<Commit>

  /** What the log leaves at a key. */
  function Current(log: Log, k: Key): Option<Attrs> {
    if log == [] then None
    else
      var n := |log| - 1;
      if log[n].key == k then log[n].after else Current(log[..n], k)
  }

  /** The last commit at a key, or -1. */
  function Latest(log: Log, k: Key): (i: int)
    ensures -1 <= i < |log|
    ensures i >= 0 ==> log[i].key == k
  {
    if log == [] then -1
    else if log[|log| - 1].key == k then |log| - 1
    else Latest(log[..|log| - 1], k)
  }

  /** How often the key was written since it last came into existence. */
  function Count(log: Log, k: Key): nat {
    if log == [] then 0
    else
      var n := |log| - 1;
      if log[n].key != k then Count(log[..n], k)
      else if log[n].after.None? then 0
      else Count(log[..n], k) + 1
  }

  predicate DeletedSince(log: Log, k: Key, at: int) {
    exists i | 0 <= i < |log| :: at < i && log[i].key == k && log[i].after.None?
  }

  /** The version a guarded write expects. */
  function Expected(w: Write): Option<int> {
    match Guard(w)
    case Compare("Version", Eq, N(e)) => Some(e)
    case _ => None
  }

  /** A write as the library builds it: a create carries version 1, a re-put one more than
      it expects, an update adds one. */
  predicate Shaped(w: Write) {
    match w
    case PutItem(item, cond) =>
      || (cond == NotExists("PK") && VersionOf(item) == Some(1))
      || (Expected(w).Some? && VersionOf(item) == Some(Expected(w).value + 1))
    case UpdateItem(_, changes, cond) => RunShape(changes) && (cond == Always || Expected(w).Some?)
    case DeleteItem(_) => true
    case Check(_, _) => true
  }

  predicate BasisIn(log: Log, o: Origin) {
    o.at < |log| && log[o.at].key == o.key && log[o.at].after == Some(o.seen)
  }

  predicate LegalAt(log: Log, i: nat)
    requires i < |log|
  {
    var c := log[i];
    && Target(c.entry.w) == Some(c.key) && !c.entry.w.Check? && Shaped(c.entry.w)
    && Judge(Current(log[..i], c.key), c.entry.w) == Accepted
    && c.after == Outcome(Current(log[..i], c.key), c.entry.w)
    && (c.entry.basis.Some? ==> BasisIn(log[..i], c.entry.basis.value))
  }

  ghost predicate Legal(log: Log) {
    forall i | 0 <= i < |log| :: LegalAt(log, i)
  }

  lemma LegalPrefix(log: Log, n: nat)
    requires Legal(log) && n <= |log|
    ensures Legal(log[..n])
  {
    forall i | 0 <= i < n ensures LegalAt(log[..n], i) {
      assert LegalAt(log, i);
      assert log[..n][..i] == log[..i];
    }
  }

  lemma LegalAppend(log: Log, c: Commit)
    requires Legal(log)
    requires LegalAt(log + [c], |log|)
    ensures Legal(log + [c])
  {
    var next := log + [c];
    forall i | 0 <= i < |next| ensures LegalAt(next, i) {
      if i < |log| {
        assert LegalAt(log, i);
        assert next[..i] == log[..i];
      }
    }
  }

  lemma {:induction false} LatestIs(log: Log, k: Key)
    ensures var i := Latest(log, k);
            if i < 0 then Current(log, k) == None && forall j | 0 <= j < |log| :: log[j].key != k
            else Current(log, k) == log[i].after && forall j | i < j < |log| :: log[j].key != k
  {
    if log == [] {
    } else {
      LatestIs(log[..|log| - 1], k);
    }
  }

  /** Stored items carry their own keys. */
  lemma {:induction false} CurrentKeyed(log: Log, k: Key)
    requires Legal(log) && Current(log, k).Some?
    ensures KeyOf(Current(log, k).value) == Some(k)
  {
    var n := |log| - 1;
    LegalPrefix(log, n);
    assert LegalAt(log, n);
    if log[n].key == k {
      if Current(log[..n], k).Some? { CurrentKeyed(log[..n], k); }
      OutcomeKey(Current(log[..n], k), log[n].entry.w, k);
    } else {
      CurrentKeyed(log[..n], k);
    }
  }

  /** What one legal commit does to the version at its key. */
  lemma VersionStep(was: Option<Attrs>, w: Write, k: Key, count: nat)
    requires Shaped(w) && !w.Check? && Target(w) == Some(k) && Judge(was, w) == Accepted
    requires was.Some? ==> KeyOf(was.value) == Some(k) && VersionOf(was.value) == Some(count)
    requires was.None? ==> count == 0
    ensures Outcome(was, w).Some? ==> VersionOf(Outcome(was, w).value) == Some(count + 1)
    ensures Expected(w).Some? ==> was.Some? && Expected(w) == Some(count)
  {
    if w.UpdateItem? { UpdateOutcome(was, w, ""); }
  }

  /** The version of a live record counts the writes since it came into existence, blind
      updates included. */
  lemma {:induction false} VersionCounts(log: Log, k: Key)
    requires Legal(log)
    ensures Current(log, k).None? ==> Count(log, k) == 0
    ensures Current(log, k).Some? ==>
              Count(log, k) >= 1 && VersionOf(Current(log, k).value) == Some(Count(log, k))
  {
    if log == [] {
    } else {
      var n := |log| - 1;
      LegalPrefix(log, n);
      VersionCounts(log[..n], k);
      if log[n].key == k {
        assert LegalAt(log, n);
        if Current(log[..n], k).Some? { CurrentKeyed(log[..n], k); }
        VersionStep(Current(log[..n], k), log[n].entry.w, k, Count(log[..n], k));
      }
    }
  }

  /** Within an incarnation the count tells the commits apart. */
  lemma {:induction false} CountSince(log: Log, k: Key, at: nat)
    requires at < |log| && log[at].key == k && log[at].after.Some? && !DeletedSince(log, k, at)
    ensures Current(log, k).Some? && Latest(log, k) >= at
    ensures Count(log, k) >= Count(log[..at + 1], k)
    ensures Count(log, k) == Count(log[..at + 1], k) <==> Latest(log, k) == at
    decreases |log|
  {
    var n := |log| - 1;
    if at == n {
      assert log[..at + 1] == log;
    } else {
      assert forall i | 0 <= i < n :: log[..n][i] == log[i];
      CountSince(log[..n], k, at);
      assert log[..n][..at + 1] == log[..at + 1];
      assert log[n].key == k ==> log[n].after.Some?;
    }
  }

  /** Key plus version determines the commit, hence the contents, within an incarnation. */
  lemma SameWrite(log: Log, o: Origin)
    requires Legal(log) && BasisIn(log, o) && !DeletedSince(log, o.key, o.at)
    ensures Current(log, o.key).Some?
    ensures VersionOf(Current(log, o.key).value) == VersionOf(o.seen) <==> Latest(log, o.key) == o.at
  {
    CountSince(log, o.key, o.at);
    VersionCounts(log, o.key);
    LegalPrefix(log, o.at + 1);
    VersionCounts(log[..o.at + 1], o.key);
    assert log[..o.at + 1][o.at] == log[o.at];
  }

  /** The write at i replaces, at its own key, exactly the write that o read. */
  predicate Replaces(log: Log, i: nat, o: Origin)
    requires i < |log|
  {
    Latest(log[..i], log[i].key) == o.at
  }

  /** Why a guarded write can rely on its read: it goes to the key that was read, expects the
      version it read, and the key was not deleted in between. */
  predicate Sound(log: Log, i: nat, o: Origin)
    requires i < |log|
  {
    && o.key == log[i].key && Expected(log[i].entry.w) == VersionOf(o.seen)
    && !DeletedSince(log[..i], o.key, o.at)
  }

  lemma NoLostUpdateAtKey(log: Log, i: nat)
    requires Legal(log) && i < |log|
    requires Expected(log[i].entry.w).Some? && log[i].entry.basis.Some?
    requires log[i].entry.basis.value.key == log[i].key
    ensures var o := log[i].entry.basis.value;
            && (Replaces(log, i, o) <==> Sound(log, i, o))
            && (Replaces(log, i, o) ==> Current(log[..i], log[i].key) == Some(o.seen))
  {
    var o, before := log[i].entry.basis.value, log[..i];
    assert LegalAt(log, i);
    LegalPrefix(log, i);
    VersionCounts(before, o.key);
    if Current(before, o.key).Some? { CurrentKeyed(before, o.key); }
    VersionStep(Current(before, o.key), log[i].entry.w, o.key, Count(before, o.key));
    LatestIs(before, o.key);
    if !DeletedSince(before, o.key, o.at) { SameWrite(before, o); }
  }

  /** No lost update: a committed guarded write that relied on a read replaces exactly what
      was read if and only if it goes to the key that was read, expects the version read, and
      the key was not deleted since. */
  lemma NoLostUpdate(log: Log, i: nat)
    requires Legal(log) && i < |log|
    requires Expected(log[i].entry.w).Some? && log[i].entry.basis.Some?
    ensures var o := log[i].entry.basis.value;
            && (Replaces(log, i, o) <==> Sound(log, i, o))
            && (Replaces(log, i, o) ==> Current(log[..i], log[i].key) == Some(o.seen))
  {
    var o := log[i].entry.basis.value;
    if o.key == log[i].key {
      NoLostUpdateAtKey(log, i);
    } else {
      assert LegalAt(log, i) && BasisIn(log[..i], o);
      assert Latest(log[..i], log[i].key) >= 0 ==> log[Latest(log[..i], log[i].key)].key == log[i].key;
    }
  }

  // ----- Attributes along an incarnation -----

  predicate Names(w: Write, attr: string) {
    w.UpdateItem? && exists c <- w.changes :: c.name == attr
  }

  function AttrAt(item: Attrs, attr: string): Option<Value> {
    if attr in item then Some(item[attr]) else None
  }

  /** The commit leaves the attribute as the write's own read found it (a put) or as it
      stands (an update). */
  predicate Carries(log: Log, i: nat, attr: string)
    requires i < |log|
  {
    var w := log[i].entry.w;
    match w
    case PutItem(item, _) =>
      && log[i].entry.basis.Some? && log[i].entry.basis.value.key == log[i].key
      && !DeletedSince(log[..i], log[i].key, log[i].entry.basis.value.at)
      && AttrAt(item, attr) == AttrAt(log[i].entry.basis.value.seen, attr)
    case UpdateItem(_, _, _) => !Names(w, attr)
    case DeleteItem(_) => false
    case Check(_, _) => true
  }

  lemma UpdateCarries(was: Option<Attrs>, w: Write, attr: string)
    requires w.UpdateItem? && RunShape(w.changes) && Judge(was, w) == Accepted && was.Some?
    requires !Names(w, attr)
    ensures AttrAt(Outcome(was, w).value, attr) == AttrAt(was.value, attr)
  {
    UpdateOutcome(was, w, attr);
  }

  lemma NoDeleteBetween(log: Log, k: Key, at: nat, mid: nat)
    requires at <= mid <= |log| && !DeletedSince(log, k, at)
    ensures !DeletedSince(log[..mid], k, at)
  {
    assert forall i | 0 <= i < mid :: log[..mid][i] == log[i];
  }

  /** An attribute that every write of an incarnation carries never changes in it. */
  lemma {:induction false} CarriedConstant(log: Log, k: Key, attr: string, i: nat, j: nat)
    requires Legal(log) && i <= j < |log| && log[i].key == k && log[j].key == k
    requires log[i].after.Some? && !DeletedSince(log[..j + 1], k, i)
    requires forall p | 0 <= p <= j && log[p].key == k && Count(log[..p], k) > 0 && log[p].after.Some? ::
               Carries(log, p, attr)
    ensures log[j].after.Some? && AttrAt(log[j].after.value, attr) == AttrAt(log[i].after.value, attr)
    decreases j
  {
    assert log[..j + 1][j] == log[j];
    if i < j {
      assert log[j].after.Some?;
      assert LegalAt(log, j);
      var before := log[..j];
      assert log[..j + 1][..j] == before;
      NoDeleteBetween(log[..j + 1], k, i, j);
      CountSince(before, k, i);
      LatestIs(before, k);
      LegalPrefix(log, j);
      VersionCounts(before, k);
      assert Carries(log, j, attr);
      if log[j].entry.w.PutItem? {
        var o := log[j].entry.basis.value;
        if o.at >= i {
          assert log[..o.at + 1] == before[..o.at + 1];
          NoDeleteBetween(before, k, i, o.at + 1);
          CarriedConstant(log, k, attr, i, o.at);
        } else {
          assert log[..i + 1] == before[..i + 1];
          NoDeleteBetween(before, k, o.at, i + 1);
          CarriedConstant(log, k, attr, o.at, i);
        }
      } else {
        var p := Latest(before, k);
        assert log[..p + 1] == before[..p + 1];
        NoDeleteBetween(before, k, i, p + 1);
        CarriedConstant(log, k, attr, i, p);
        UpdateCarries(Current(before, k), log[j].entry.w, attr);
      }
    }
  }

  // ----- Counters -----

  function DeltaIn(cs: seq<Change>, attr: string): int {
    if cs == [] then 0
    else (if cs[0].AddNum? && cs[0].name == attr then cs[0].delta else 0) + DeltaIn(cs[1..], attr)
  }

  /** What a committed write adds to a numeric attribute. */
  function Delta(w: Write, attr: string): int {
    if w.UpdateItem? then DeltaIn(w.changes, attr) else 0
  }

  function SumDeltas(log: Log, k: Key, attr: string): int {
    if log == [] then 0
    else
      var n := |log| - 1;
      SumDeltas(log[..n], k, attr) + if log[n].key == k then Delta(log[n].entry.w, attr) else 0
  }

  /** The write only adds to the counter, or is a lock-guarded put that carries the value it
      read and whose guard is sound. */
  predicate CountsOnly(log: Log, i: nat, attr: string)
    requires i < |log|
  {
    var w := log[i].entry.w;
    match w
    case PutItem(item, _) =>
      && Expected(w).Some? && log[i].entry.basis.Some? && log[i].entry.basis.value.key == log[i].key
      && Sound(log, i, log[i].entry.basis.value)
      && AttrAt(item, attr) == AttrAt(log[i].entry.basis.value.seen, attr)
    case UpdateItem(_, changes, _) => forall c <- changes :: c.name == attr ==> c.AddNum?
    case DeleteItem(_) => false
    case Check(_, _) => true
  }

  lemma {:induction false} DeltaAbsent(cs: seq<Change>, attr: string)
    requires forall c <- cs :: c.name != attr
    ensures DeltaIn(cs, attr) == 0
  {
    if cs == [] {
    } else {
      DeltaAbsent(cs[1..], attr);
    }
  }

  lemma {:induction false} DeltaOf(cs: seq<Change>, i: nat)
    requires i < |cs| && DistinctNames(cs) && cs[i].AddNum?
    ensures DeltaIn(cs, cs[i].name) == cs[i].delta
  {
    if i == 0 {
      forall c <- cs[1..] ensures c.name != cs[0].name {
        var j :| 0 <= j < |cs[1..]| && cs[1..][j] == c;
        assert cs[j + 1] == c;
      }
      DeltaAbsent(cs[1..], cs[0].name);
    } else {
      assert forall p, q | 0 <= p < q < |cs[1..]| :: cs[1..][p] == cs[p + 1] && cs[1..][q] == cs[q + 1];
      assert cs[0].name != cs[i].name;
      DeltaOf(cs[1..], i - 1);
    }
  }

  lemma UpdateAdds(was: Attrs, w: Write, attr: string)
    requires w.UpdateItem? && Judge(Some(was), w) == Accepted
    requires attr in was && was[attr].N? && forall c <- w.changes :: c.name == attr ==> c.AddNum?
    ensures var after := Outcome(Some(was), w).value;
            attr in after && after[attr] == N(was[attr].n + Delta(w, attr))
  {
    if i :| 0 <= i < |w.changes| && w.changes[i].name == attr {
      ChangesApply(was, w.changes, i);
      DeltaOf(w.changes, i);
    } else {
      forall c <- w.changes ensures c.name != attr {}
      ChangesLeave(was, w.changes, attr);
      DeltaAbsent(w.changes, attr);
    }
  }

  /** Counter conservation: from any commit on, the stored value is the value there plus the
      sum of all deltas committed since, although blind adds take no lock. */
  lemma {:induction false} CounterConserved(log: Log, k: Key, attr: string, from: nat)
    requires Legal(log) && from <= |log|
    requires Current(log[..from], k).Some? && AttrAt(Current(log[..from], k).value, attr).Some?
    requires Current(log[..from], k).value[attr].N?
    requires forall i | from <= i < |log| && log[i].key == k :: CountsOnly(log, i, attr)
    ensures Current(log, k).Some? && attr in Current(log, k).value
    ensures Current(log, k).value[attr]
            == N(Current(log[..from], k).value[attr].n + SumDeltas(log[from..], k, attr))
    decreases |log|
  {
    if from == |log| {
      assert log[..from] == log;
    } else {
      var n := |log| - 1;
      var before := log[..n];
      LegalPrefix(log, n);
      assert before[..from] == log[..from];
      forall i | from <= i < n && before[i].key == k ensures CountsOnly(before, i, attr) {
        assert CountsOnly(log, i, attr);
        assert before[..i] == log[..i];
      }
      CounterConserved(before, k, attr, from);
      assert log[from..][..|log[from..]| - 1] == before[from..];
      if log[n].key == k {
        assert LegalAt(log, n) && CountsOnly(log, n, attr);
        if log[n].entry.w.PutItem? {
          NoLostUpdate(log, n);
        } else {
          UpdateAdds(Current(before, k).value, log[n].entry.w, attr);
        }
      }
    }
  }

  // ----- UpdatedAt -----

  function UpdatedAt(item: Attrs): int {
    if "UpdatedAt" in item && item["UpdatedAt"].N? then item["UpdatedAt"].n else 0
  }

  /** The time a write was stamped with. */
  function StampTime(w: Write): int {
    match w
    case PutItem(item, _) => UpdatedAt(item)
    case UpdateItem(_, cs, _) => if RunShape(cs) then cs[0].value.n else 0
    case _ => 0
  }

  /** Every write that relies on a read was stamped at or after that record's own stamp. */
  ghost predicate ClockOrdered(log: Log) {
    forall i | 0 <= i < |log| :: log[i].entry.basis.Some? && log[i].after.Some? ==>
      UpdatedAt(log[i].entry.basis.value.seen) <= StampTime(log[i].entry.w)
  }

  predicate GuardedSoundly(log: Log, i: nat)
    requires i < |log|
  {
    var c := log[i];
    && c.after.Some? && Expected(c.entry.w).Some? && c.entry.basis.Some?
    && c.entry.basis.value.key == c.key && Sound(log, i, c.entry.basis.value)
  }

  /** UpdatedAt never goes backwards along a key's versions while every write is soundly
      guarded, although stamping precedes commit. */
  lemma {:induction false} UpdatedAtMonotone(log: Log, k: Key, i: nat, j: nat)
    requires Legal(log) && ClockOrdered(log) && i <= j < |log|
    requires log[i].key == k && log[j].key == k && log[i].after.Some?
    requires forall p | i < p <= j && log[p].key == k :: GuardedSoundly(log, p)
    ensures log[j].after.Some? && UpdatedAt(log[i].after.value) <= UpdatedAt(log[j].after.value)
    decreases j
  {
    if i < j {
      assert GuardedSoundly(log, j) && LegalAt(log, j);
      NoLostUpdate(log, j);
      var o := log[j].entry.basis.value;
      LatestIs(log[..j], k);
      assert log[..j][i].key == k;
      UpdatedAtMonotone(log, k, i, o.at);
      if log[j].entry.w.UpdateItem? {
        UpdateOutcome(Current(log[..j], k), log[j].entry.w, "");
      }
    }
  }

  // ----- The type index -----

  /** The struct name under which the type index lists the record: that of its create, as
      long as no later full put replaced the record. */
  function IndexEntry(log: Log, k: Key): Option<string> {
    if log == [] then None
    else
      var n := |log| - 1;
      if log[n].key != k then IndexEntry(log[..n], k)
      else match log[n].entry.w
           case PutItem(_, cond) => if cond == NotExists("PK") then Some(log[n].entry.t.name) else None
           case UpdateItem(_, _, _) => IndexEntry(log[..n], k)
           case _ => None
  }

  /** Puts carry the index attribute exactly on create, and updates leave it alone. */
  predicate IndexDiscipline(x: Entry, attr: string) {
    match x.w
    case PutItem(item, cond) =>
      AttrAt(item, attr) == if cond == NotExists("PK") then Some(S(x.t.name)) else None
    case UpdateItem(_, _, _) => !Names(x.w, attr)
    case _ => true
  }

  /** A record is visible to a type-index query exactly when the last full put of its key
      was its create: a re-put replaces the item without the index attribute. */
  lemma {:induction false} TypeIndexExactly(log: Log, k: Key, attr: string)
    requires Legal(log) && attr != "PK" && attr != "SK"
    requires forall i | 0 <= i < |log| && log[i].key == k :: IndexDiscipline(log[i].entry, attr)
    ensures AttrAt(ItemOf(Current(log, k)), attr)
            == if IndexEntry(log, k).Some? then Some(S(IndexEntry(log, k).value)) else None
  {
    if log == [] {
    } else {
      var n := |log| - 1;
      LegalPrefix(log, n);
      TypeIndexExactly(log[..n], k, attr);
      if log[n].key == k {
        assert LegalAt(log, n) && IndexDiscipline(log[n].entry, attr);
        var was, w := Current(log[..n], k), log[n].entry.w;
        if w.UpdateItem? {
          var base := if was.Some? then was.value else KeyAttrs(k);
          ChangesLeave(base, w.changes, attr);
        }
      }
    }
  }

  // ----- Recording accepted requests -----

  function Writes(es: seq<Entry>): seq<Write> {
    seq(|es|, i requires 0 <= i < |es| => es[i].w)
  }

  /** Recording the entries of an accepted request, one after the other. */
  function Record1(table: Table, log: Log, x: Entry): (Table, Log)
    requires Target(x.w).Some?
  {
    var k := Target(x.w).value;
    var after := Outcome(Lookup(table, k), x.w);
    (Place(table, k, after), if x.w.Check? then log else log + [Commit(k, x, after)])
  }

  function RecordAll(table: Table, log: Log, es: seq<Entry>): (Table, Log)
    requires forall x <- es :: Target(x.w).Some?
    decreases |es|
  {
    if es == [] then (table, log)
    else
      var (t, l) := Record1(table, log, es[0]);
      RecordAll(t, l, es[1..])
  }

  lemma AcceptedTargets(t: Table, es: seq<Entry>)
    requires Store.Commit(t, Writes(es)).Some?
    ensures forall x <- es :: Target(x.w).Some?
  {
    forall x <- es ensures Target(x.w).Some? {
      var i :| 0 <= i < |es| && es[i] == x;
      assert Writes(es)[i] in Writes(es);
    }
  }

  ghost predicate TableOf(t: Table, log: Log) {
    forall k :: Lookup(t, k) == Current(log, k)
  }

  /** The entry can be recorded once the table accepts it. */
  predicate Committable(log: Log, x: Entry) {
    Shaped(x.w) && (x.basis.Some? ==> BasisIn(log, x.basis.value))
  }

  lemma SelfKeyedTable(t: Table, log: Log)
    requires Legal(log) && TableOf(t, log)
    ensures SelfKeyed(t)
  {
    forall k <- t ensures KeyOf(t[k]) == Some(k) {
      assert Lookup(t, k) == Current(log, k);
      CurrentKeyed(log, k);
    }
  }

  lemma AppendLegal(log: Log, x: Entry, k: Key)
    requires Legal(log) && Committable(log, x) && !x.w.Check? && Target(x.w) == Some(k)
    requires Judge(Current(log, k), x.w) == Accepted
    ensures Legal(log + [Commit(k, x, Outcome(Current(log, k), x.w))])
  {
    var c := Commit(k, x, Outcome(Current(log, k), x.w));
    assert (log + [c])[..|log|] == log;
    LegalAppend(log, c);
  }

  lemma AppendTable(table: Table, log: Log, c: Commit)
    requires TableOf(table, log)
    ensures TableOf(Place(table, c.key, c.after), log + [c])
  {
    assert (log + [c])[..|log|] == log;
    forall j ensures Lookup(Place(table, c.key, c.after), j) == Current(log + [c], j) {
      assert Lookup(table, j) == Current(log, j);
    }
  }

  /** One accepted entry extends the log by a legal commit. */
  lemma Record1Ok(table: Table, log: Log, x: Entry)
    requires Legal(log) && TableOf(table, log) && Admits(table, x.w) && Committable(log, x)
    ensures var (t, l) := Record1(table, log, x);
            Legal(l) && TableOf(t, l) && log <= l && forall i | |log| <= i < |l| :: l[i].entry == x
  {
    var k := Target(x.w).value;
    assert Lookup(table, k) == Current(log, k);
    if x.w.Check? {
      assert Place(table, k, Lookup(table, k)) == table;
    } else {
      AppendLegal(log, x, k);
      AppendTable(table, log, Commit(k, x, Outcome(Current(log, k), x.w)));
    }
  }

  lemma {:induction false} RecordEach(table: Table, log: Log, es: seq<Entry>)
    requires Legal(log) && TableOf(table, log) && DistinctTargets(Writes(es))
    requires forall x <- es :: Target(x.w).Some? && Admits(table, x.w)
    requires forall x <- es :: Committable(log, x)
    ensures var (t, l) := RecordAll(table, log, es);
            && Legal(l) && TableOf(t, l) && log <= l
            && (forall i | |log| <= i < |l| :: l[i].entry in es)
            && (forall w <- Writes(es) :: Target(w).Some?) && t == ApplyAll(table, Writes(es))
    decreases |es|
  {
    assert forall w <- Writes(es) :: Target(w).Some?;
    if es == [] {
    } else {
      var (t, l) := Record1(table, log, es[0]);
      assert es[0] in es;
      Record1Ok(table, log, es[0]);
      assert Writes(es)[1..] == Writes(es[1..]);
      forall x <- es[1..] ensures Committable(l, x) && Target(x.w).Some? && Admits(t, x.w) {
        var i :| 0 <= i < |es[1..]| && es[1..][i] == x;
        assert x in es && Target(Writes(es)[0]) != Target(Writes(es)[i + 1]);
      }
      forall i, j | 0 <= i < j < |es[1..]| ensures Target(Writes(es[1..])[i]) != Target(Writes(es[1..])[j]) {
        assert Target(Writes(es)[i + 1]) != Target(Writes(es)[j + 1]);
      }
      RecordEach(t, l, es[1..]);
    }
  }

  /** Recording a request that the table accepts: the table is the service's, and the log
      stays legal. */
  lemma RecordAllOk(table: Table, log: Log, es: seq<Entry>)
    requires Legal(log) && TableOf(table, log) && Store.Commit(table, Writes(es)).Some?
    requires forall x <- es :: Committable(log, x)
    ensures forall x <- es :: Target(x.w).Some?
    ensures var (t, l) := RecordAll(table, log, es);
            && Legal(l) && TableOf(t, l) && log <= l
            && (forall i | |log| <= i < |l| :: l[i].entry in es)
            && Store.Commit(table, Writes(es)) == Some(t)
  {
    AcceptedTargets(table, es);
    forall x <- es ensures Admits(table, x.w) {
      var i :| 0 <= i < |es| && es[i] == x;
      assert Writes(es)[i] in Writes(es);
    }
    RecordEach(table, log, es);
  }
}
