/** Entities: a struct value with its embedded Model. */
module Model {
  import opened Store
  import opened Tags

  const NIL_ID := "00000000-0000-0000-0000-000000000000"

  /** A time.Time: the instant, which is stored and compared, and how the value prints. The
      text is not determined by the instant: a reading of the clock prints its monotonic part
      and its zone, and storage keeps neither. */
  datatype Time = Time(instant: int, text: string)

  const ZERO_INSTANT := 0

  const ZERO_TIME := Time(ZERO_INSTANT, "0001-01-01 00:00:00 +0000 UTC")

  /** The names of Model's fields, which are also their attribute names. */
  predicate ModelName(n: string) {
    || n == "ID" || n == "Type" || n == "CreatedAt" || n == "CreatedBy"
    || n == "UpdatedAt" || n == "UpdatedBy" || n == "Version"
  }

  /** A value of struct type t: the Model fields, and the struct's own fields by Go name. */
  datatype Entity = Entity(
    t: StructType, id: string, typ: string,
    createdAt: Time, createdBy: string, updatedAt: Time, updatedBy: string,
    version: int, fields: map<string, Value>)

  predicate IsZero(v: Value) {
    v == S("") || v == N(0) || v == B([])
  }

  predicate SameKind(v: Value, w: Value) {
    match v
    case S(_) => w.S?
    case N(_) => w.N?
    case B(_) => w.B?
  }

  function NamesOf(fs: seq<Field>): set<string> {
    set f <- fs :: f.name
  }

  /** Go field names are distinct, and neither they nor the attribute names they resolve to
      shadow Model's or meet each other. */
  predicate WellFormedType(t: StructType) {
    var fs := Layout(t);
    && Distinct(fs)
    && forall f <- fs :: !ModelName(f.name) && !ModelName(f.attr) && IsZero(f.zero)
  }

  predicate WellTyped(e: Entity) {
    && WellFormedType(e.t)
    && e.fields.Keys == NamesOf(Layout(e.t))
    && forall f <- Layout(e.t) :: SameKind(e.fields[f.name], f.zero)
  }

  function ZeroFields(fs: seq<Field>): (m: map<string, Value>)
    ensures m.Keys == NamesOf(fs)
  {
    if fs == [] then map[]
    else
      assert fs == [fs[0]] + fs[1..];
      ZeroFields(fs[1..])[fs[0].name := fs[0].zero]
  }

  /** The zero value of a struct type with only its ID set. */
  function ZeroEntity(t: StructType, id: string): Entity {
    Entity(t, id, "", ZERO_TIME, "", ZERO_TIME, "", 0, ZeroFields(Layout(t)))
  }

  lemma {:induction false} ZeroFieldsAt(fs: seq<Field>, f: Field)
    requires f in fs && Distinct(fs)
    ensures ZeroFields(fs)[f.name] == f.zero
  {
    if f == fs[0] {
    } else {
      assert f in fs[1..];
      ZeroFieldsAt(fs[1..], f);
    }
  }

  lemma ZeroWellTyped(t: StructType, id: string)
    requires WellFormedType(t)
    ensures WellTyped(ZeroEntity(t, id))
    ensures forall f <- Layout(t) :: ZeroEntity(t, id).fields[f.name] == f.zero
  {
    forall f <- Layout(t) ensures ZeroEntity(t, id).fields[f.name] == f.zero {
      ZeroFieldsAt(Layout(t), f);
    }
  }

  /** A pointer to a struct value, which the library stamps and fills in place. */
  class Item {
    const t: StructType
    var id: string
    var typ: string
    var createdAt: Time
    var createdBy: string
    var updatedAt: Time
    var updatedBy: string
    var version: int
    var fields: map<string, Value>

    constructor (e: Entity)
      ensures View() == e
    {
      t := e.t;
      id, typ, createdAt, createdBy := e.id, e.typ, e.createdAt, e.createdBy;
      updatedAt, updatedBy, version, fields := e.updatedAt, e.updatedBy, e.version, e.fields;
    }

    /** Takes over a value of the same type. */
    method Fill(e: Entity)
      requires e.t == t
      modifies this
      ensures View() == e
    {
      id, typ, createdAt, createdBy := e.id, e.typ, e.createdAt, e.createdBy;
      updatedAt, updatedBy, version, fields := e.updatedAt, e.updatedBy, e.version, e.fields;
    }

    function View(): Entity
      reads this
    {
      Entity(t, id, typ, createdAt, createdBy, updatedAt, updatedBy, version, fields)
    }
  }

  /** The 36-character text of section 4 of RFC 9562. */
  predicate IsUuidText(s: string) {
    && |s| == 36
    && forall i | 0 <= i < 36 ::
         if i in {8, 13, 18, 23} then s[i] == '-' else '0' <= s[i] <= '9' || 'a' <= s[i] <= 'f'
  }
}

/** Partition and sort keys. */
module Keys {
  import opened Text
  import opened Store
  import opened Tags
  import opened Model

  function Decimals(b: seq<Byte>): seq<string> {
    seq(|b|, i requires 0 <= i < |b| => Decimal(b[i]))
  }

  /** fmt.Sprint of a field value. */
  function Sprint(v: Value): string {
    match v
    case S(s) => s
    case N(n) => Decimal(n)
    case B(b) => "[" + Join(Decimals(b), ' ') + "]"
  }

  predicate HasField(e: Entity, name: string) {
    ModelName(name) || name in e.fields
  }

  /** What a key takes from a field; of a time it takes the text. */
  function FieldValue(e: Entity, name: string): Value
    requires HasField(e, name)
  {
    if name == "ID" then S(e.id)
    else if name == "Type" then S(e.typ)
    else if name == "CreatedAt" then S(e.createdAt.text)
    else if name == "CreatedBy" then S(e.createdBy)
    else if name == "UpdatedAt" then S(e.updatedAt.text)
    else if name == "UpdatedBy" then S(e.updatedBy)
    else if name == "Version" then N(e.version)
    else e.fields[name]
  }

  function FieldText(e: Entity, name: string): string
    requires HasField(e, name)
  {
    Sprint(FieldValue(e, name))
  }

  function PkFields(t: StructType): (fs: seq<string>)
    ensures fs != []
  {
    var fs := ModelClauses(t.modelTag).pk;
    if fs == [] then ["ID"] else fs
  }

  /** The ID is always the last component. */
  function SkFields(t: StructType): (fs: seq<string>)
    ensures fs != [] && fs[|fs| - 1] == "ID"
  {
    var fs := ModelClauses(t.modelTag).sk;
    if fs == [] then ["ID"] else if fs[|fs| - 1] != "ID" then fs + ["ID"] else fs
  }

  /** The panic conditions of the key builders: a listed field must exist. */
  predicate Keyable(e: Entity) {
    (forall f <- PkFields(e.t) :: HasField(e, f)) && (forall f <- SkFields(e.t) :: HasField(e, f))
  }

  function Texts(e: Entity, fields: seq<string>): seq<string>
    requires forall f <- fields :: HasField(e, f)
  {
    seq(|fields|, i requires 0 <= i < |fields| => FieldText(e, fields[i]))
  }

  function KeyText(e: Entity, fields: seq<string>): string
    requires forall f <- fields :: HasField(e, f)
  {
    Join([e.t.name] + Texts(e, fields), '#')
  }

  /** buildKey. */
  method BuildKey(e: Entity, fields: seq<string>) returns (key: string)
    requires forall f <- fields :: HasField(e, f)
    ensures key == KeyText(e, fields)
  {
    var parts := [e.t.name];
    for i := 0 to |fields|
      invariant parts == [e.t.name] + Texts(e, fields[..i])
    {
      parts := parts + [FieldText(e, fields[i])];
      assert Texts(e, fields[..i + 1]) == Texts(e, fields[..i]) + [FieldText(e, fields[i])];
    }
    assert fields[..|fields|] == fields;
    key := Join(parts, '#');
  }

  function PK(e: Entity): string
    requires Keyable(e)
  {
    KeyText(e, PkFields(e.t))
  }

  function SK(e: Entity): string
    requires Keyable(e)
  {
    KeyText(e, SkFields(e.t))
  }

  function EntityKey(e: Entity): Key
    requires Keyable(e)
  {
    Key(PK(e), SK(e))
  }

  lemma SortKeyEndsInId(e: Entity)
    requires Keyable(e)
    ensures |e.id| <= |SK(e)| && SK(e)[|SK(e)| - |e.id|..] == e.id
  {
    var fs := SkFields(e.t);
    var n := |fs| - 1;
    var front := [e.t.name] + Texts(e, fs[..n]);
    assert [e.t.name] + Texts(e, fs) == front + [e.id];
    JoinSnoc(front, e.id, '#');
  }

  /** Keys of arbitrary clauses of any two types: the sort key determines the ID, whatever
      '#' the other fields hold. */
  lemma SortKeyDeterminesId(d: Entity, e: Entity)
    requires Keyable(d) && Keyable(e) && IsUuidText(d.id) && IsUuidText(e.id)
    requires SK(d) == SK(e)
    ensures d.id == e.id
  {
    SortKeyEndsInId(d);
    SortKeyEndsInId(e);
  }

  lemma KeyStartsWithName(e: Entity, fields: seq<string>)
    requires fields != [] && forall f <- fields :: HasField(e, f)
    ensures KeyText(e, fields) == e.t.name + ['#'] + Join(Texts(e, fields), '#')
  {
    assert ([e.t.name] + Texts(e, fields))[1..] == Texts(e, fields);
  }

  /** Keys of differently named structs never meet (a Go type name holds no '#'). */
  lemma KeysSeparateTypes(d: Entity, fields: seq<string>, e: Entity, fields': seq<string>)
    requires fields != [] && fields' != []
    requires (forall f <- fields :: HasField(d, f)) && (forall f <- fields' :: HasField(e, f))
    requires Free(d.t.name, '#') && Free(e.t.name, '#')
    requires KeyText(d, fields) == KeyText(e, fields')
    ensures d.t.name == e.t.name
  {
    KeyStartsWithName(d, fields);
    KeyStartsWithName(e, fields');
    FirstSeparator(d.t.name, Join(Texts(d, fields), '#'), '#');
    FirstSeparator(e.t.name, Join(Texts(e, fields'), '#'), '#');
    assert d.t.name == KeyText(d, fields)[..|d.t.name|];
    assert e.t.name == KeyText(e, fields')[..|e.t.name|];
  }

  predicate SeparatorFree(e: Entity, fields: seq<string>)
    requires forall f <- fields :: HasField(e, f)
  {
    Free(e.t.name, '#') && forall s <- Texts(e, fields) :: Free(s, '#')
  }

  lemma JoinOne(a: seq<string>)
    requires |a| == 1
    ensures Join(a, '#') == a[0] && Join(a, '#') + ['#'] == a[0] + ['#'] + ""
  {}

  lemma JoinMore(a: seq<string>)
    requires |a| > 1
    ensures Join(a, '#') == a[0] + ['#'] + Join(a[1..], '#')
    ensures Join(a, '#') + ['#'] == a[0] + ['#'] + (Join(a[1..], '#') + ['#'])
  {
    var tail := Join(a[1..], '#');
    assert (a[0] + ['#'] + tail) + ['#'] == a[0] + ['#'] + (tail + ['#']);
  }

  /** Cutting two texts at their first '#'. */
  lemma PrefixAtSeparator(x: string, p: string, y: string, k: string)
    requires Free(x, '#') && Free(y, '#')
    ensures x + ['#'] + p <= y + ['#'] + k <==> x == y && p <= k
  {
    var left, right := x + ['#'] + p, y + ['#'] + k;
    FirstSeparator(x, p, '#');
    FirstSeparator(y, k, '#');
    if left <= right {
      FirstSeparatorOfPrefix(left, right);
      assert left[..|x|] == x && right[..|x|] == y;
      assert left[|x| + 1..] == p && right[|x| + 1..] == k;
    }
    if x == y && p <= k {
      assert forall i | 0 <= i < |left| :: left[i] == right[i];
    }
  }

  lemma PrefixOfOne(x: string, p: string, y: string)
    requires Free(y, '#')
    ensures !(x + ['#'] + p <= y)
  {
    assert (x + ['#'] + p)[|x|] == '#';
  }

  lemma {:induction false} PrefixOfJoin(a: seq<string>, b: seq<string>)
    requires a != [] && b != []
    requires forall s <- a + b :: Free(s, '#')
    ensures Join(a, '#') + ['#'] <= Join(b, '#') <==> |a| < |b| && b[..|a|] == a
  {
    assert a[0] in a + b && b[0] in a + b;
    var p := if |a| == 1 then "" else Join(a[1..], '#') + ['#'];
    if |a| == 1 { JoinOne(a); } else { JoinMore(a); }
    if |b| == 1 {
      JoinOne(b);
      PrefixOfOne(a[0], p, b[0]);
    } else {
      JoinMore(b);
      PrefixAtSeparator(a[0], p, b[0], Join(b[1..], '#'));
      assert a == [a[0]] + a[1..] && b == [b[0]] + b[1..];
      if |a| > 1 {
        assert forall s <- a[1..] + b[1..] :: s in a + b;
        PrefixOfJoin(a[1..], b[1..]);
      }
      PrefixCons(a, b);
    }
  }

  lemma PrefixCons(a: seq<string>, b: seq<string>)
    requires a != [] && b != []
    ensures |a| < |b| && b[..|a|] == a <==> |a| < |b| && a[0] == b[0] && b[1..][..|a| - 1] == a[1..]
  {
    if |a| < |b| {
      assert b[..|a|][1..] == b[1..][..|a| - 1];
      assert a == [a[0]] + a[1..] && b[..|a|] == [b[0]] + b[..|a|][1..];
    }
  }

  lemma {:induction false} FirstSeparatorOfPrefix(p: string, k: string)
    requires p <= k && '#' in p
    ensures IndexOf(p, '#') == IndexOf(k, '#')
  {
    if p[0] != '#' {
      assert p[1..] <= k[1..];
      assert p == [p[0]] + p[1..];
      FirstSeparatorOfPrefix(p[1..], k[1..]);
    }
  }

  lemma SameAfterName(name: string, leading: seq<string>, texts: seq<string>)
    ensures |leading| <= |texts| ==>
              (([name] + texts)[..|leading| + 1] == [name] + leading <==> texts[..|leading|] == leading)
  {
    if |leading| <= |texts| {
      assert ([name] + texts)[..|leading| + 1] == [name] + texts[..|leading|];
      assert ([name] + texts[..|leading|])[1..] == texts[..|leading|];
      assert ([name] + leading)[1..] == leading;
    }
  }

  /** A key prefix ending in '#' selects exactly the records with those leading values. */
  lemma PrefixSelects(e: Entity, fields: seq<string>, leading: seq<string>)
    requires fields != [] && forall f <- fields :: HasField(e, f)
    requires SeparatorFree(e, fields) && forall s <- leading :: Free(s, '#')
    ensures Join([e.t.name] + leading, '#') + ['#'] <= KeyText(e, fields)
            <==> |leading| < |fields| && Texts(e, fields)[..|leading|] == leading
  {
    var a, b := [e.t.name] + leading, [e.t.name] + Texts(e, fields);
    assert forall s <- a + b :: Free(s, '#');
    PrefixOfJoin(a, b);
    SameAfterName(e.t.name, leading, Texts(e, fields));
  }

  // ----- Default keys -----

  /** requiresDefaultKey accepts the type. */
  predicate DefaultKey(t: StructType) {
    ModelClauses(t.modelTag).pk == [] && ModelClauses(t.modelTag).sk == []
  }

  /** No field other than the ID takes part in a key. */
  predicate OnlyId(t: StructType) {
    (forall f <- PkFields(t) :: f == "ID") && (forall f <- SkFields(t) :: f == "ID")
  }

  /** zeroKeys; a listed field must exist, as for PK and SK. */
  function ZeroKeys(t: StructType, id: string): Key
    requires Keyable(ZeroEntity(t, id))
  {
    EntityKey(ZeroEntity(t, id))
  }

  lemma DefaultIsOnlyId(t: StructType)
    requires DefaultKey(t)
    ensures OnlyId(t)
  {}

  lemma OnlyIdKeyable(e: Entity)
    requires OnlyId(e.t)
    ensures Keyable(e)
  {}

  lemma OnlyIdTexts(d: Entity, e: Entity, fields: seq<string>)
    requires d.t == e.t && d.id == e.id && forall f <- fields :: f == "ID"
    ensures KeyText(d, fields) == KeyText(e, fields)
  {
    forall i | 0 <= i < |fields| ensures Texts(d, fields)[i] == Texts(e, fields)[i] {
      assert fields[i] in fields;
    }
    assert Texts(d, fields) == Texts(e, fields);
  }

  /** The key Get, Delete, Update and BatchGet compute from an ID. */
  function IdKey(t: StructType, id: string): Key
    requires DefaultKey(t)
  {
    DefaultIsOnlyId(t);
    OnlyIdKeyable(ZeroEntity(t, id));
    ZeroKeys(t, id)
  }

  lemma {:induction false} LongerJoin(a: seq<string>, b: seq<string>)
    requires |a| == |b| && forall i | 0 <= i < |a| :: |a[i]| <= |b[i]|
    ensures |Join(a, '#')| <= |Join(b, '#')|
    ensures (exists i | 0 <= i < |a| :: |a[i]| < |b[i]|) ==> |Join(a, '#')| < |Join(b, '#')|
  {
    if |a| <= 1 {
    } else {
      LongerJoin(a[1..], b[1..]);
      if i :| 0 <= i < |a| && |a[i]| < |b[i]| && i > 0 {
        assert |a[1..][i - 1]| < |b[1..][i - 1]|;
      }
    }
  }

  function Longer(v: Value): Value {
    match v
    case S(_) => S("x")
    case N(_) => N(10)
    case B(_) => B([1])
  }

  /** A value of the same type and ID in which every other field prints longer than its zero. */
  function Witness(t: StructType, id: string): Entity {
    var zero, later := ZeroFields(Layout(t)), Time(10, ZERO_TIME.text + "x");
    Entity(t, id, "x", later, "x", later, "x", 10, map n | n in zero :: Longer(zero[n]))
  }

  lemma {:induction false} ZeroFieldsZero(fs: seq<Field>)
    requires forall f <- fs :: IsZero(f.zero)
    ensures forall n <- ZeroFields(fs) :: IsZero(ZeroFields(fs)[n])
  {
    if fs == [] {
    } else {
      assert fs[0] in fs;
      ZeroFieldsZero(fs[1..]);
    }
  }

  lemma WitnessWellTyped(t: StructType, id: string)
    requires WellFormedType(t)
    ensures WellTyped(Witness(t, id))
  {
    forall f <- Layout(t) ensures SameKind(Witness(t, id).fields[f.name], f.zero) {
      ZeroFieldsAt(Layout(t), f);
    }
  }

  lemma LongerPrints(v: Value)
    requires IsZero(v)
    ensures |Sprint(v)| < |Sprint(Longer(v))|
  {
    assert DecimalNat(10) == "10" by { assert DecimalNat(1) == "1"; }
    assert Join(Decimals([]), ' ') == "";
    assert Decimals([1]) == ["1"];
  }

  lemma WitnessLonger(t: StructType, id: string, f: string)
    requires WellFormedType(t) && HasField(ZeroEntity(t, id), f) && f != "ID"
    ensures |FieldText(ZeroEntity(t, id), f)| < |FieldText(Witness(t, id), f)|
  {
    if ModelName(f) {
      LongerPrints(N(0));
    } else {
      ZeroFieldsZero(Layout(t));
      LongerPrints(ZeroFields(Layout(t))[f]);
    }
  }

  lemma WitnessText(t: StructType, id: string, f: string)
    requires WellFormedType(t) && HasField(ZeroEntity(t, id), f)
    ensures HasField(Witness(t, id), f)
    ensures |FieldText(ZeroEntity(t, id), f)| <= |FieldText(Witness(t, id), f)|
    ensures f != "ID" ==> |FieldText(ZeroEntity(t, id), f)| < |FieldText(Witness(t, id), f)|
  {
    if f != "ID" { WitnessLonger(t, id, f); }
  }

  /** A key grows when its texts do. */
  lemma KeyGrows(d: Entity, e: Entity, fields: seq<string>, i: nat)
    requires d.t == e.t && i < |fields| && forall f <- fields :: HasField(d, f) && HasField(e, f)
    requires forall f <- fields :: |FieldText(d, f)| <= |FieldText(e, f)|
    requires |FieldText(d, fields[i])| < |FieldText(e, fields[i])|
    ensures |KeyText(d, fields)| < |KeyText(e, fields)|
  {
    var a, b := [d.t.name] + Texts(d, fields), [e.t.name] + Texts(e, fields);
    assert |a[i + 1]| < |b[i + 1]|;
    LongerJoin(a, b);
  }

  lemma WitnessKeyLonger(t: StructType, id: string, fields: seq<string>)
    requires WellFormedType(t) && forall f <- fields :: HasField(ZeroEntity(t, id), f)
    requires exists f <- fields :: f != "ID"
    ensures forall f <- fields :: HasField(Witness(t, id), f)
    ensures KeyText(ZeroEntity(t, id), fields) != KeyText(Witness(t, id), fields)
  {
    forall f <- fields
      ensures HasField(Witness(t, id), f)
      ensures |FieldText(ZeroEntity(t, id), f)| <= |FieldText(Witness(t, id), f)|
    {
      WitnessText(t, id, f);
    }
    var i :| 0 <= i < |fields| && fields[i] != "ID";
    WitnessText(t, id, fields[i]);
    KeyGrows(ZeroEntity(t, id), Witness(t, id), fields, i);
  }

  /** The key computed from a zero value with the ID set is every entity's own key exactly
      when no other field takes part in a key. */
  lemma ZeroKeysAgree(t: StructType, id: string)
    requires WellFormedType(t) && Keyable(ZeroEntity(t, id))
    ensures (forall e: Entity | WellTyped(e) && e.t == t && e.id == id ::
               Keyable(e) && EntityKey(e) == ZeroKeys(t, id))
            <==> OnlyId(t)
  {
    if OnlyId(t) {
      forall e: Entity | WellTyped(e) && e.t == t && e.id == id
        ensures Keyable(e) && EntityKey(e) == ZeroKeys(t, id)
      {
        OnlyIdKeyable(e);
        OnlyIdTexts(e, ZeroEntity(t, id), PkFields(t));
        OnlyIdTexts(e, ZeroEntity(t, id), SkFields(t));
      }
    } else {
      var e := Witness(t, id);
      WitnessWellTyped(t, id);
      if exists f <- PkFields(t) :: f != "ID" {
        WitnessKeyLonger(t, id, PkFields(t));
      } else {
        WitnessKeyLonger(t, id, SkFields(t));
      }
      assert EntityKey(e) != ZeroKeys(t, id);
    }
  }

  /** Get, Delete, Update and BatchGet address by id exactly the key Put writes, for every
      type they accept. */
  lemma AddressingById(e: Entity)
    requires DefaultKey(e.t)
    ensures Keyable(e) && EntityKey(e) == IdKey(e.t, e.id)
    ensures EntityKey(e) == Key(e.t.name + "#" + e.id, e.t.name + "#" + e.id)
  {
    DefaultIsOnlyId(e.t);
    OnlyIdKeyable(e);
    OnlyIdKeyable(ZeroEntity(e.t, e.id));
    OnlyIdTexts(e, ZeroEntity(e.t, e.id), ["ID"]);
    KeyStartsWithName(e, ["ID"]);
    assert Texts(e, ["ID"]) == [e.id];
  }

  // ----- Keys of a tag -----

  /** The struct name and the printed values of the listed fields. */
  lemma ListKey(e: Entity, fields: seq<string>)
    requires fields != [] && forall f <- fields :: HasField(e, f)
    ensures KeyText(e, fields) == e.t.name + "#" + Join(Texts(e, fields), '#')
  {
    KeyStartsWithName(e, fields);
  }

  lemma IdText(e: Entity)
    ensures HasField(e, "ID") && FieldText(e, "ID") == e.id
  {}

  lemma IdKeyText(e: Entity)
    ensures HasField(e, "ID") && KeyText(e, ["ID"]) == e.t.name + "#" + e.id
  {
    IdText(e);
    ListKey(e, ["ID"]);
    assert Texts(e, ["ID"]) == [e.id];
  }

  lemma WithId(e: Entity, fields: seq<string>)
    requires fields != [] && forall f <- fields :: HasField(e, f)
    ensures forall f <- fields + ["ID"] :: HasField(e, f)
    ensures KeyText(e, fields + ["ID"]) == e.t.name + "#" + (Join(Texts(e, fields), '#') + "#" + e.id)
  {
    IdText(e);
    ListKey(e, fields + ["ID"]);
    assert Texts(e, fields + ["ID"]) == Texts(e, fields) + [e.id];
    JoinSnoc(Texts(e, fields), e.id, '#');
  }

  /** The keys of a type with the given clauses: without a pk clause PK is the struct name and
      the ID, with one it is the struct name and the value of every listed field in order. SK
      likewise, but the ID comes last whether it is listed there or not. */
  ghost predicate KeysListed(e: Entity, pk: seq<string>, sk: seq<string>)
    requires forall f <- pk + sk :: HasField(e, f)
  {
    && Keyable(e)
    && PK(e) == e.t.name + "#" + (if pk == [] then e.id else Join(Texts(e, pk), '#'))
    && SK(e) == e.t.name + "#" + (if sk == [] then e.id
                                  else if sk[|sk| - 1] == "ID" then Join(Texts(e, sk), '#')
                                  else Join(Texts(e, sk), '#') + "#" + e.id)
    && (DefaultKey(e.t) <==> pk == [] && sk == [])
  }

  lemma ClausesListed(e: Entity, pk: seq<string>, sk: seq<string>)
    requires ModelClauses(e.t.modelTag) == Clauses(pk, sk) && forall f <- pk + sk :: HasField(e, f)
    ensures KeysListed(e, pk, sk)
  {
    assert forall f <- pk :: f in pk + sk;
    assert forall f <- sk :: f in pk + sk;
    IdKeyText(e);
    if pk != [] { ListKey(e, pk); }
    if sk != [] {
      ListKey(e, sk);
      WithId(e, sk);
    }
  }

  /** For any text of the tag, with its white space, empty slots, malformed and repeated
      clauses: the fields of the last pk clause reach the partition key and those of the last sk
      clause the sort key. */
  lemma KeysOfTag(e: Entity, cs: seq<Rendered>)
    requires cs != [] && (forall c <- cs :: c.Valid()) && e.t.modelTag == Some(RenderTag(cs))
    requires forall f <- LastFields(cs, "pk") + LastFields(cs, "sk") :: HasField(e, f)
    ensures KeysListed(e, LastFields(cs, "pk"), LastFields(cs, "sk"))
  {
    ParseOfRender(cs);
    ClausesListed(e, LastFields(cs, "pk"), LastFields(cs, "sk"));
  }

  /** Without a tag both keys are the struct name and the ID. */
  lemma KeysWithoutTag(e: Entity)
    requires e.t.modelTag == None
    ensures KeysListed(e, [], [])
  {
    ClausesListed(e, [], []);
  }
}
