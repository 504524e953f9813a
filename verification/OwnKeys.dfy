/** When a stored record reads back as an entity whose own key is the one it sits at. */
module OwnKeys {
  import opened Text
  import opened Store
  import opened Tags
  import opened Model
  import opened Keys
  import opened Compress
  import opened Crud

  /** A field tagged out of storage. */
  predicate Lost(t: StructType, n: string) {
    !ModelName(n) && var f := Find(Layout(t), n); f.Some? && f.value.ignored && !f.value.compressed
  }

  /** The listed fields, of both keys. */
  function Listed(t: StructType): seq<string> {
    PkFields(t) + SkFields(t)
  }

  /** Every field a key lists prints after reading as it did when it was written: it is
      stored, and it is no time. */
  predicate KeysReprint(t: StructType) {
    forall n <- Listed(t) :: n != "CreatedAt" && n != "UpdatedAt" && !Lost(t, n)
  }

  /** The record reads back as an entity whose PK and SK are the given key. */
  predicate InPlace(codec: Codec, t: StructType, av: Attrs, k: Key) {
    var r := Unmarshalled(codec, av, ZeroEntity(t, NIL_ID));
    r.ok && Keyable(r.e) && EntityKey(r.e) == k
  }

  /** What a round trip makes of a field's text. */
  lemma KeptText(codec: Codec, e: Entity, n: string)
    requires WellTyped(e) && HasField(e, n)
    ensures HasField(Kept(codec, e), n)
    ensures FieldText(Kept(codec, e), n)
            == if n == "CreatedAt" then codec.timeText(e.createdAt.instant)
               else if n == "UpdatedAt" then codec.timeText(e.updatedAt.instant)
               else if Lost(e.t, n) then Sprint(Find(Layout(e.t), n).value.zero)
               else FieldText(e, n)
  {}

  lemma KeptKeyable(codec: Codec, e: Entity)
    requires WellTyped(e) && Keyable(e)
    ensures Keyable(Kept(codec, e))
  {
    forall n | n in PkFields(e.t) || n in SkFields(e.t) ensures HasField(Kept(codec, e), n) {
      assert HasField(e, n);
      KeptText(codec, e, n);
    }
  }

  lemma KeptTexts(codec: Codec, e: Entity, fields: seq<string>)
    requires WellTyped(e) && forall n <- fields :: HasField(e, n)
    requires forall n <- fields :: n != "CreatedAt" && n != "UpdatedAt" && !Lost(e.t, n)
    ensures forall n <- fields :: HasField(Kept(codec, e), n)
    ensures KeyText(Kept(codec, e), fields) == KeyText(e, fields)
  {
    forall n <- fields
      ensures HasField(Kept(codec, e), n) && FieldText(Kept(codec, e), n) == FieldText(e, n)
    {
      KeptText(codec, e, n);
    }
    assert Texts(Kept(codec, e), fields) == Texts(e, fields);
  }

  lemma KeptKey(codec: Codec, e: Entity)
    requires WellTyped(e) && Keyable(e) && KeysReprint(e.t)
    ensures Keyable(Kept(codec, e)) && EntityKey(Kept(codec, e)) == EntityKey(e)
  {
    KeptKeyable(codec, e);
    assert forall n <- PkFields(e.t) :: n in Listed(e.t);
    assert forall n <- SkFields(e.t) :: n in Listed(e.t);
    KeptTexts(codec, e, PkFields(e.t));
    KeptTexts(codec, e, SkFields(e.t));
  }

  lemma RecordInPlace(cfg: Config, s: Entity, isNew: bool)
    requires Putable(cfg, s) && Faithful(cfg.codec) && Record(cfg, s, isNew).Some? && KeysReprint(s.t)
    ensures InPlace(cfg.codec, s.t, Record(cfg, s, isNew).value, EntityKey(s))
  {
    RecordExpands(cfg, s, isNew);
    ExtraClear(cfg, s, isNew);
    RoundTrip(cfg.codec, s, Extra(cfg, s, isNew));
    KeptKey(cfg.codec, s);
  }

  // ----- Keys and what is stored -----

  /** The text a key takes from a field, times aside, is that of the attribute the same put
      stores for it, unless the field is packed or left out of storage. */
  lemma KeyTextStored(cfg: Config, e: Entity, a: Args, n: string)
    requires SealOf(cfg, e, a).Some? && HasField(Stamp(e, a), n) && n != "CreatedAt" && n != "UpdatedAt"
    ensures var w := SealOf(cfg, e, a).value;
            && w.PutItem?
            && (ModelName(n) ==> n in w.item && FieldText(Stamp(e, a), n) == Sprint(w.item[n]))
            && forall f <- Layout(e.t) | f.name == n && !ModelName(n) && !f.compressed && !f.ignored ::
                 f.attr in w.item && FieldText(Stamp(e, a), n) == Sprint(w.item[f.attr])
  {
    SealHolds(cfg, e, a);
    if ModelName(n) {
      HeldText(SealOf(cfg, e, a).value.item, Stamp(e, a), n);
    }
    forall f <- Layout(e.t) | f.name == n && !ModelName(n) && !f.compressed && !f.ignored
      ensures f.attr in SealOf(cfg, e, a).value.item
      ensures FieldText(Stamp(e, a), n) == Sprint(SealOf(cfg, e, a).value.item[f.attr])
    {
      OwnFieldStored(cfg, e, a, f);
    }
  }

  lemma HeldText(item: Attrs, s: Entity, n: string)
    requires HoldsModel(item, s) && ModelName(n) && n != "CreatedAt" && n != "UpdatedAt"
    ensures n in item && FieldText(s, n) == Sprint(item[n])
  {}

  lemma OwnFieldStored(cfg: Config, e: Entity, a: Args, f: Field)
    requires SealOf(cfg, e, a).Some? && f in Layout(e.t) && !f.compressed && !f.ignored
    ensures var w := SealOf(cfg, e, a).value;
            && w.PutItem? && f.attr in w.item && f.name in Stamp(e, a).fields
            && w.item[f.attr] == Stamp(e, a).fields[f.name]
  {
    PutIs(cfg, e, a);
    RecordIs(cfg, e, a);
    var s := Stamp(e, a);
    MarshalledField(cfg.codec, s, f);
    ExtraClear(cfg, s, IsNew(e));
    assert f.name in NamesOf(Layout(s.t));
  }

  // ----- Keys that do not reprint -----

  lemma ZeroPrintsShortest(v: Value, zero: Value)
    requires IsZero(zero) && SameKind(v, zero)
    ensures |Sprint(zero)| <= |Sprint(v)|
  {
    assert Decimals([]) == [] && Join(Decimals([]), ' ') == "";
    assert Decimal(0) == "0";
  }

  /** Of the listed texts none grew and one shrank. */
  predicate Shrinks(d: Entity, e: Entity, fields: seq<string>, n: string) {
    && d.t == e.t && n in fields
    && (forall f <- fields :: HasField(d, f) && HasField(e, f) && |FieldText(d, f)| <= |FieldText(e, f)|)
    && |FieldText(d, n)| < |FieldText(e, n)|
  }

  lemma ShrunkKey(d: Entity, e: Entity, fields: seq<string>, n: string)
    requires Shrinks(d, e, fields, n)
    ensures |KeyText(d, fields)| < |KeyText(e, fields)|
  {
    var i :| 0 <= i < |fields| && fields[i] == n;
    KeyGrows(d, e, fields, i);
  }

  lemma ShrunkEither(d: Entity, e: Entity, n: string)
    requires Keyable(d) && Keyable(e) && Shrinks(d, e, Listed(e.t), n)
    ensures EntityKey(d) != EntityKey(e)
  {
    if n in PkFields(e.t) {
      ShrunkKey(d, e, PkFields(e.t), n);
    } else {
      ShrunkKey(d, e, SkFields(e.t), n);
    }
  }

  lemma ListedHave(e: Entity)
    requires Keyable(e)
    ensures forall f <- Listed(e.t) :: HasField(e, f)
  {}

  /** A time prints longer after reading, and nothing else changes. */
  lemma LaterTimes(codec: Codec, s: Entity, n: string)
    requires WellTyped(s) && Keyable(s) && n in Listed(s.t) && (n == "CreatedAt" || n == "UpdatedAt")
    requires forall f <- Listed(s.t) :: !Lost(s.t, f)
    requires |s.createdAt.text| < |codec.timeText(s.createdAt.instant)|
    requires |s.updatedAt.text| < |codec.timeText(s.updatedAt.instant)|
    ensures Keyable(Kept(codec, s)) && EntityKey(Kept(codec, s)) != EntityKey(s)
  {
    KeptKeyable(codec, s);
    ListedHave(s);
    forall f <- Listed(s.t)
      ensures HasField(Kept(codec, s), f) && |FieldText(s, f)| <= |FieldText(Kept(codec, s), f)|
    {
      KeptText(codec, s, f);
    }
    KeptText(codec, s, n);
    ShrunkEither(s, Kept(codec, s), n);
  }

  lemma LostShorter(codec: Codec, s: Entity, f: string)
    requires WellTyped(s) && HasField(s, f)
    requires codec.timeText(s.createdAt.instant) == "" && codec.timeText(s.updatedAt.instant) == ""
    ensures HasField(Kept(codec, s), f) && |FieldText(Kept(codec, s), f)| <= |FieldText(s, f)|
  {
    KeptText(codec, s, f);
    if Lost(s.t, f) {
      FindIn(Layout(s.t), f);
      ZeroPrintsShortest(s.fields[f], Find(Layout(s.t), f).value.zero);
    }
  }

  /** A field that is not stored reads back as its zero. */
  lemma LostField(codec: Codec, s: Entity, n: string)
    requires WellTyped(s) && Keyable(s) && n in Listed(s.t) && Lost(s.t, n)
    requires codec.timeText(s.createdAt.instant) == "" && codec.timeText(s.updatedAt.instant) == ""
    requires s.fields[n] == Longer(Find(Layout(s.t), n).value.zero)
    ensures Keyable(Kept(codec, s)) && EntityKey(Kept(codec, s)) != EntityKey(s)
  {
    KeptKeyable(codec, s);
    ListedHave(s);
    forall f <- Listed(s.t)
      ensures HasField(Kept(codec, s), f) && |FieldText(Kept(codec, s), f)| <= |FieldText(s, f)|
    {
      LostShorter(codec, s, f);
    }
    KeptText(codec, s, n);
    FindIn(Layout(s.t), n);
    LongerPrints(Find(Layout(s.t), n).value.zero);
    ShrunkEither(Kept(codec, s), s, n);
  }

  // ----- Exactly when -----

  /** Times print in the given way after they were read. */
  function Printing(cfg: Config, back: int -> string): Config {
    cfg.(codec := cfg.codec.(timeText := back))
  }

  /** What a put of the value stores reads back as an entity whose own key is the key it was
      stored at. */
  ghost predicate StaysInPlace(cfg: Config, e: Entity, a: Args) {
    var w := SealOf(cfg, e, a);
    w.Some? ==>
      w.value.PutItem? && Target(w.value).Some? && InPlace(cfg.codec, e.t, w.value.item, Target(w.value).value)
  }

  lemma PrintingFaithful(cfg: Config, back: int -> string)
    requires Faithful(cfg.codec)
    ensures Faithful(Printing(cfg, back).codec)
  {}

  lemma SealedIff(cfg: Config, e: Entity, a: Args)
    requires Putable(cfg, e)
    ensures SealOf(cfg, e, a).Some? <==> AllPack(cfg.codec, Layout(e.t), e.fields)
  {
    StampKeeps(cfg, e, a);
    var s := Stamp(e, a);
    PackSucceeds(cfg.codec, Layout(s.t), s.fields, MarshalMap(Layout(s.t), s));
  }

  /** The key a put goes to is the one that its entity, as read back, has. */
  lemma InPlaceIff(cfg: Config, e: Entity, a: Args)
    requires Faithful(cfg.codec) && SealOf(cfg, e, a).Some?
    ensures var s := Stamp(e, a);
            && WellTyped(s) && Keyable(s) && Keyable(Kept(cfg.codec, s))
            && (StaysInPlace(cfg, e, a) <==> EntityKey(Kept(cfg.codec, s)) == EntityKey(s))
  {
    PutIs(cfg, e, a);
    ReadBackPut(cfg, e, a);
    KeptKeyable(cfg.codec, Stamp(e, a));
  }

  function Fixed(text: string): int -> string {
    _ => text
  }

  /** A key lists a time and no lost field: a reading that prints longer moves it. */
  lemma TimeMoves(cfg: Config, e: Entity, a: Args, n: string)
    requires Faithful(cfg.codec) && SealOf(cfg, e, a).Some?
    requires n in Listed(e.t) && (n == "CreatedAt" || n == "UpdatedAt") && forall f <- Listed(e.t) :: !Lost(e.t, f)
    ensures var back := Fixed(e.createdAt.text + a.now.text + "x"); !StaysInPlace(Printing(cfg, back), e, a)
  {
    var p := Printing(cfg, Fixed(e.createdAt.text + a.now.text + "x"));
    PrintingFaithful(cfg, Fixed(e.createdAt.text + a.now.text + "x"));
    SealedIff(cfg, e, a);
    SealedIff(p, e, a);
    InPlaceIff(p, e, a);
    LaterTimes(p.codec, Stamp(e, a), n);
  }

  /** The value with a lost field set. */
  function LostSet(e: Entity, n: string): Entity
    requires Lost(e.t, n)
  {
    e.(fields := e.fields[n := Longer(Find(Layout(e.t), n).value.zero)])
  }

  lemma LostSetSealed(cfg: Config, e: Entity, a: Args, n: string)
    requires SealOf(cfg, e, a).Some? && Lost(e.t, n)
    ensures SealOf(cfg, LostSet(e, n), a).Some?
  {
    var f := Find(Layout(e.t), n).value;
    FindIn(Layout(e.t), n);
    var d := LostSet(e, n);
    assert n in NamesOf(Layout(e.t)) && d.fields.Keys == e.fields.Keys;
    forall g <- Layout(e.t) ensures SameKind(d.fields[g.name], g.zero) && (g.compressed ==> g.name != n) {
      if g.name == n { SameField(Layout(e.t), f, g); }
    }
    assert Keyable(d) by {
      ListedHave(e);
      assert forall f <- Listed(e.t) :: HasField(d, f);
    }
    SealedIff(cfg, e, a);
    SealedIff(cfg, d, a);
  }

  /** A key lists a field that is not stored: a value of it moves the key. */
  lemma LostMoves(cfg: Config, e: Entity, a: Args, n: string)
    requires Faithful(cfg.codec) && SealOf(cfg, e, a).Some? && n in Listed(e.t) && Lost(e.t, n)
    ensures !StaysInPlace(Printing(cfg, Fixed("")), LostSet(e, n), a)
  {
    var p, d := Printing(cfg, Fixed("")), LostSet(e, n);
    PrintingFaithful(cfg, Fixed(""));
    SealedIff(cfg, e, a);
    SealedIff(p, e, a);
    LostSetSealed(p, e, a, n);
    InPlaceIff(p, d, a);
    LostField(p.codec, Stamp(d, a), n);
  }

  /** For a type of which anything can be put at all: whatever is put, and however times print
      when stamped and when read back, the record reads back as an entity at its own key, if
      and only if no key lists CreatedAt, UpdatedAt or a field tagged out of storage. */
  lemma OwnKeyIff(cfg: Config, e: Entity, a: Args)
    requires Faithful(cfg.codec) && SealOf(cfg, e, a).Some?
    ensures (forall d: Entity, b: Args, back: int -> string | d.t == e.t :: StaysInPlace(Printing(cfg, back), d, b))
            <==> KeysReprint(e.t)
  {
    if KeysReprint(e.t) {
      forall d: Entity, b: Args, back: int -> string | d.t == e.t ensures StaysInPlace(Printing(cfg, back), d, b) {
        var p := Printing(cfg, back);
        if SealOf(p, d, b).Some? {
          PrintingFaithful(cfg, back);
          InPlaceIff(p, d, b);
          KeptKey(p.codec, Stamp(d, b));
        }
      }
    } else if n :| n in Listed(e.t) && Lost(e.t, n) {
      LostMoves(cfg, e, a, n);
    } else {
      var n :| n in Listed(e.t) && (n == "CreatedAt" || n == "UpdatedAt");
      TimeMoves(cfg, e, a, n);
    }
  }
}
