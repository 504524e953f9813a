/** Puts whose edited fields move their key: PK and SK are computed from the value as it is
    sent, and the guard compares a version only. */
module MovedPuts {
  import opened Text
  import opened Store
  import opened Model
  import opened Compress
  import opened Crud
  import opened History
  import opened Protocol
  import opened Steps

  /** A copy whose edited fields move its key, when another record of the same version is
      there. */
  predicate KeyMoved(cfg: Config, s: State, c: nat, a: Args, k: Key) {
    && c in s.copies && s.copies[c].clean && s.copies[c].origin.Some? && !IsNew(s.copies[c].e)
    && SealOf(cfg, s.copies[c].e, a).Some? && Target(SealOf(cfg, s.copies[c].e, a).value) == Some(k)
    && k != s.copies[c].origin.value.key
    && k in s.table && VersionOf(s.table[k]) == Some(s.copies[c].e.version)
  }

  /** What a moved put leaves in the log: a first send that expected the version it read, and
      overwrote a record that it had not read. */
  ghost predicate OverwritesUnread(log: Log, i: nat, k: Key, o: Origin) {
    && i < |log| && log[i].key == k && o.key != k
    && log[i].entry.basis == Some(o) && log[i].entry.source.Some? && log[i].entry.source.value.first
    && Expected(log[i].entry.w) == VersionOf(o.seen) && !DeletedSince(log[..i], o.key, o.at)
    && Current(log[..i], k).Some? && !Replaces(log, i, o)
  }

  /** Why the key matters: such a copy, sent for the first time since it was read, overwrites
      the other record. */
  lemma MovedPut(cfg: Config, actions: seq<Action>, c: nat, r: nat, a: Args, k: Key)
    requires KeyMoved(cfg, Run(cfg, actions), c, a, k)
    requires var s := Run(cfg, actions); var o := s.copies[c].origin.value; !DeletedSince(s.log, o.key, o.at)
    ensures var s, s' := Run(cfg, actions), Run(cfg, actions + PutActions(c, r, a));
            && |s'.log| == |s.log| + 1 && s'.log[..|s.log|] == s.log
            && OverwritesUnread(s'.log, |s.log|, k, s.copies[c].origin.value)
            && s'.log[|s.log|].after.Some? && CreatedAt(s'.log[|s.log|].after.value) == s.copies[c].e.createdAt.instant
  {
    var s := Run(cfg, actions);
    RunOk(cfg, actions);
    assert Lookup(s.table, k) == Current(s.log, k);
    RePutAccepted(cfg, s.table[k], s.copies[c].e, a);
    var x := PutEntry(cfg, s.copies[c], c, a);
    PutAccepted(cfg, actions, c, r, a, k, x);
    SealHolds(cfg, s.copies[c].e, a);
    assert CopyOk(s.log, s.copies[c]);
    MovedReplaces(s.log, Commit(k, x, Some(x.w.item)), s.copies[c].origin.value);
  }

  lemma MovedReplaces(log: Log, x: Commit, o: Origin)
    requires BasisIn(log, o) && x.key != o.key
    ensures (log + [x])[..|log|] == log && !Replaces(log + [x], |log|, o)
  {
    assert (log + [x])[..|log|] == log;
  }

  // ----- A run that moves a put -----

  /** Two records of one type with the same ID and other key fields; a client reads the first,
      sets its fields to those of the second and puts it. */
  function MoveActions(e: Entity, other: Entity, a: Args, b: Args, k: Key): seq<Action> {
    CreateActions(0, e, a) + CreateActions(1, other, b) + [ReadCopy(2, e.t, k), Edit(2, other.fields)]
  }

  /** Two creates. */
  lemma TwoCreated(cfg: Config, e: Entity, other: Entity, a: Args, b: Args, k: Key, k': Key)
    requires k != k'
    requires IsNew(e) && SealOf(cfg, e, a).Some? && Target(SealOf(cfg, e, a).value) == Some(k)
    requires IsNew(other) && SealOf(cfg, other, b).Some? && Target(SealOf(cfg, other, b).value) == Some(k')
    ensures var s := Run(cfg, CreateActions(0, e, a) + CreateActions(1, other, b));
            var w, w' := SealOf(cfg, e, a).value, SealOf(cfg, other, b).value;
            && w.PutItem? && w'.PutItem? && s.table == map[k := w.item, k' := w'.item]
            && |s.log| == 2 && s.log[0].key == k && s.log[1].key == k' && s.log[1].after == Some(w'.item)
  {
    var first := CreateActions(0, e, a);
    assert [] + first == first;
    CreateRun(cfg, [], 0, e, a, k);
    CreateRun(cfg, first, 1, other, b, k');
  }

  lemma LatestOfTwo(log: Log, k: Key)
    requires |log| == 2 && log[0].key == k && log[1].key != k
    ensures Latest(log, k) == 0 && !DeletedSince(log, log[0].key, 0)
  {
    assert Latest(log[..1], k) == 0;
  }

  lemma NewReads(cfg: Config, e: Entity, a: Args)
    requires Faithful(cfg.codec) && SealOf(cfg, e, a).Some? && WellTyped(Stamp(e, a))
    ensures WellFormedType(e.t) && SealOf(cfg, e, a).value.PutItem?
    ensures Unmarshalled(cfg.codec, SealOf(cfg, e, a).value.item, ZeroEntity(e.t, NIL_ID))
            == Read(true, Kept(cfg.codec, Stamp(e, a)))
  {
    PutIs(cfg, e, a);
    ReadBackPut(cfg, e, a);
  }

  lemma NewStored(cfg: Config, e: Entity, a: Args)
    requires IsNew(e) && SealOf(cfg, e, a).Some?
    ensures var w := SealOf(cfg, e, a).value;
            w.PutItem? && VersionOf(w.item) == Some(1) && CreatedAt(w.item) == a.now.instant
  {
    CreateIs(cfg, e, a);
    SealHolds(cfg, e, a);
  }

  lemma StampedNew(codec: Codec, e: Entity, a: Args)
    requires IsNew(e) && a.now.instant != ZERO_INSTANT && WellTyped(Stamp(e, a))
    ensures var r := Kept(codec, Stamp(e, a));
            !IsNew(r) && r.version == 1 && r.createdAt.instant == a.now.instant
  {}

  lemma MoveRead(cfg: Config, actions: seq<Action>, e: Entity, a: Args, k: Key, fields: map<string, Value>)
    requires Faithful(cfg.codec) && SealOf(cfg, e, a).Some? && WellTyped(Stamp(e, a))
    requires var s, w := Run(cfg, actions), SealOf(cfg, e, a).value;
             w.PutItem? && k in s.table && s.table[k] == w.item && Latest(s.log, k) == 0
    ensures var s := Run(cfg, actions);
            var moved := Kept(cfg.codec, Stamp(e, a)).(fields := fields);
            Run(cfg, actions + [ReadCopy(2, e.t, k), Edit(2, fields)])
            == s.(copies := s.copies[2 := Copy(moved, Some(Origin(k, 0, s.table[k])), true)])
  {
    NewReads(cfg, e, a);
    ReadAndEdit(cfg, actions, 2, e.t, k, fields);
  }

  lemma MovedState(cfg: Config, s: State, copy: Copy, c: Args, k': Key)
    requires copy.clean && copy.origin.Some? && copy.origin.value.key != k' && !IsNew(copy.e)
    requires SealOf(cfg, copy.e, c).Some? && Target(SealOf(cfg, copy.e, c).value) == Some(k')
    requires k' in s.table && VersionOf(s.table[k']) == Some(copy.e.version)
    ensures KeyMoved(cfg, s.(copies := s.copies[2 := copy]), 2, c, k')
  {}

  /** The state before that put: the copy's key has moved onto the second record. */
  lemma MoveReached(cfg: Config, e: Entity, other: Entity, a: Args, b: Args, c: Args, k: Key, k': Key)
    requires Faithful(cfg.codec) && a.now.instant != ZERO_INSTANT && k != k'
    requires IsNew(e) && SealOf(cfg, e, a).Some? && Target(SealOf(cfg, e, a).value) == Some(k)
    requires IsNew(other) && SealOf(cfg, other, b).Some? && Target(SealOf(cfg, other, b).value) == Some(k')
    requires WellTyped(Stamp(e, a))
    requires var moved := Kept(cfg.codec, Stamp(e, a)).(fields := other.fields);
             SealOf(cfg, moved, c).Some? && Target(SealOf(cfg, moved, c).value) == Some(k')
    ensures var s := Run(cfg, MoveActions(e, other, a, b, k));
            && |s.log| == 2 && KeyMoved(cfg, s, 2, c, k')
            && s.copies[2].origin.value.key == k && !DeletedSince(s.log, k, s.copies[2].origin.value.at)
            && s.copies[2].e.createdAt.instant == a.now.instant
            && s.log[1].key == k' && s.log[1].after.Some? && CreatedAt(s.log[1].after.value) == b.now.instant
  {
    var both := CreateActions(0, e, a) + CreateActions(1, other, b);
    TwoCreated(cfg, e, other, a, b, k, k');
    var s := Run(cfg, both);
    LatestOfTwo(s.log, k);
    NewStored(cfg, other, b);
    MoveRead(cfg, both, e, a, k, other.fields);
    StampedNew(cfg.codec, e, a);
    var moved := Kept(cfg.codec, Stamp(e, a)).(fields := other.fields);
    MovedState(cfg, s, Copy(moved, Some(Origin(k, 0, s.table[k])), true), c, k');
  }

  lemma MoveEnds(cfg: Config, actions: seq<Action>, c: Args, k': Key, mine: int, theirs: int)
    requires var s := Run(cfg, actions);
             && |s.log| == 2 && KeyMoved(cfg, s, 2, c, k') && s.copies[2].e.createdAt.instant == mine
             && !DeletedSince(s.log, s.copies[2].origin.value.key, s.copies[2].origin.value.at)
             && s.log[1].key == k' && s.log[1].after.Some? && CreatedAt(s.log[1].after.value) == theirs
    ensures var log := Run(cfg, actions + PutActions(2, 2, c)).log;
            && |log| == 3 && log[2].entry.basis.Some? && OverwritesUnread(log, 2, k', log[2].entry.basis.value)
            && log[1].key == k' && log[1].after.Some? && CreatedAt(log[1].after.value) == theirs
            && log[2].after.Some? && CreatedAt(log[2].after.value) == mine
  {
    MovedPut(cfg, actions, 2, 2, c, k');
    var log := Run(cfg, actions + PutActions(2, 2, c)).log;
    assert log[..2][1] == log[1];
  }

  /** So no lost update fails in that run: the second record is overwritten, although nobody
      read it, by the first send of a copy whose own record was never deleted. CreatedAt of the
      live record at that key becomes the first record's. */
  lemma MovedPutRun(cfg: Config, e: Entity, other: Entity, a: Args, b: Args, c: Args, k: Key, k': Key)
    requires Faithful(cfg.codec) && a.now.instant != ZERO_INSTANT && k != k'
    requires IsNew(e) && SealOf(cfg, e, a).Some? && Target(SealOf(cfg, e, a).value) == Some(k)
    requires IsNew(other) && SealOf(cfg, other, b).Some? && Target(SealOf(cfg, other, b).value) == Some(k')
    requires WellTyped(Stamp(e, a))
    requires var moved := Kept(cfg.codec, Stamp(e, a)).(fields := other.fields);
             SealOf(cfg, moved, c).Some? && Target(SealOf(cfg, moved, c).value) == Some(k')
    ensures var log := Run(cfg, MoveActions(e, other, a, b, k) + PutActions(2, 2, c)).log;
            && |log| == 3 && log[2].entry.basis.Some? && OverwritesUnread(log, 2, k', log[2].entry.basis.value)
            && log[1].key == k' && log[1].after.Some? && CreatedAt(log[1].after.value) == b.now.instant
            && log[2].after.Some? && CreatedAt(log[2].after.value) == a.now.instant
  {
    MoveReached(cfg, e, other, a, b, c, k, k');
    MoveEnds(cfg, MoveActions(e, other, a, b, k), c, k', a.now.instant, b.now.instant);
  }
}
