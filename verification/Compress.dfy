/** Marshalling an entity to attributes and back, with transparently compressed fields. */
module Compress {
  import opened Text
  import opened Store
  import opened Tags
  import opened Model

  /** The serialization libraries. Packing is gzip over JSON and can fail (an unmarshalable
      value); unpacking decodes into a field of the type of the given zero and can fail too.
      timeText is how a time that was read from storage prints. */
  datatype Codec =
    Codec(pack: Value -> Option<seq<Byte>>, unpack: (seq<Byte>, Value) -> Option<Value>, timeText: int -> string)

  /** Decoding what was encoded, into a field of the same type, gives the value back. */
  ghost predicate Faithful(codec: Codec) {
    forall v: Value, zero: Value | SameKind(v, zero) && codec.pack(v).Some? ::
      codec.unpack(codec.pack(v).value, zero) == Some(v)
  }

  function ModelAttrs(e: Entity): Attrs {
    map["ID" := S(e.id), "Type" := S(e.typ),
        "CreatedAt" := N(e.createdAt.instant), "CreatedBy" := S(e.createdBy),
        "UpdatedAt" := N(e.updatedAt.instant), "UpdatedBy" := S(e.updatedBy), "Version" := N(e.version)]
  }

  function NativeFields(fs: seq<Field>, vals: map<string, Value>, base: Attrs): Attrs
    requires NamesOf(fs) <= vals.Keys
  {
    if fs == [] then base
    else
      var n := |fs| - 1;
      assert forall f <- fs[..n] :: f in fs;
      var m := NativeFields(fs[..n], vals, base);
      if fs[n].ignored then m else m[fs[n].attr := vals[fs[n].name]]
  }

  /** attributevalue.MarshalMap of an entity whose struct has the given fields. */
  function MarshalMap(fs: seq<Field>, e: Entity): Attrs
    requires NamesOf(fs) <= e.fields.Keys
  {
    NativeFields(fs, e.fields, ModelAttrs(e))
  }

  function PackFields(codec: Codec, fs: seq<Field>, vals: map<string, Value>, base: Attrs): Option<Attrs>
    requires NamesOf(fs) <= vals.Keys
  {
    if fs == [] then Some(base)
    else
      var n := |fs| - 1;
      assert forall f <- fs[..n] :: f in fs;
      var m := PackFields(codec, fs[..n], vals, base);
      if m.None? || !fs[n].compressed then m
      else
        var p := codec.pack(vals[fs[n].name]);
        if p.None? then None else Some(m.value[fs[n].attr := B(p.value)])
  }

  function MarshalWith(codec: Codec, fs: seq<Field>, e: Entity): Option<Attrs>
    requires NamesOf(fs) <= e.fields.Keys
  {
    PackFields(codec, fs, e.fields, MarshalMap(fs, e))
  }

  function Marshalled(codec: Codec, e: Entity): Option<Attrs>
    requires WellTyped(e)
  {
    MarshalWith(codec, Layout(e.t), e)
  }

  /** Packing name by name, as the loop over the compressed names does. */
  function PackNames(codec: Codec, fs: seq<Field>, vals: map<string, Value>, names: seq<string>,
                     base: Attrs): Option<Attrs> {
    if names == [] then Some(base)
    else
      var n := |names| - 1;
      var m := PackNames(codec, fs, vals, names[..n], base);
      if m.None? || names[n] !in vals then m
      else
        var p := codec.pack(vals[names[n]]);
        if p.None? then None else Some(m.value[AttrName(fs, names[n]) := B(p.value)])
  }

  lemma {:induction false} PackNamesIsByField(codec: Codec, all: seq<Field>, fs: seq<Field>,
                        vals: map<string, Value>, base: Attrs)
    requires Distinct(all) && fs <= all && NamesOf(fs) <= vals.Keys
    ensures PackNames(codec, all, vals, CompressNames(fs), base) == PackFields(codec, fs, vals, base)
  {
    if fs == [] {
    } else {
      var n := |fs| - 1;
      assert forall f <- fs[..n] :: f in fs;
      PackNamesIsByField(codec, all, fs[..n], vals, base);
      assert fs[n] == all[n] && fs[n].name in NamesOf(fs);
      FindDistinct(all, fs[n]);
      DropLastName(fs);
    }
  }

  lemma DropLastName(fs: seq<Field>)
    requires fs != []
    ensures var n, ns := |fs| - 1, CompressNames(fs);
            if fs[n].compressed then ns != [] && ns[|ns| - 1] == fs[n].name && ns[..|ns| - 1] == CompressNames(fs[..n])
            else ns == CompressNames(fs[..n])
  {}

  lemma {:induction false} PackNamesStops(codec: Codec, fs: seq<Field>, vals: map<string, Value>,
                        names: seq<string>, base: Attrs, i: nat)
    requires i <= |names| && PackNames(codec, fs, vals, names[..i], base).None?
    ensures PackNames(codec, fs, vals, names, base).None?
    decreases |names|
  {
    if i < |names| {
      assert names[..|names| - 1][..i] == names[..i];
      PackNamesStops(codec, fs, vals, names[..|names| - 1], base, i);
    } else {
      assert names[..i] == names;
    }
  }

  /** The loop of marshalItem over the compressed names. */
  method PackAll(codec: Codec, e: Entity, names: seq<string>, base: Attrs) returns (r: Option<Attrs>)
    ensures r == PackNames(codec, Layout(e.t), e.fields, names, base)
  {
    var av := base;
    for i := 0 to |names|
      invariant PackNames(codec, Layout(e.t), e.fields, names[..i], base) == Some(av)
    {
      assert names[..i + 1][..i] == names[..i];
      if names[i] in e.fields {
        var packed := codec.pack(e.fields[names[i]]);
        if packed.None? {
          PackNamesStops(codec, Layout(e.t), e.fields, names, base, i + 1);
          return None;
        }
        var attr := ResolveAttrName(e.t, names[i]);
        av := av[attr := B(packed.value)];
      }
    }
    assert names[..|names|] == names;
    return Some(av);
  }

  /** marshalItem. */
  method MarshalItem(codec: Codec, item: Item) returns (r: Option<Attrs>)
    requires WellTyped(item.View())
    ensures r == Marshalled(codec, item.View())
  {
    var e := item.View();
    var names := ParseCompressFields(e.t);
    r := PackAll(codec, e, names, MarshalMap(Layout(e.t), e));
    PackNamesIsByField(codec, Layout(e.t), Layout(e.t), e.fields, MarshalMap(Layout(e.t), e));
  }

  // ----- Reading -----

  predicate TextOk(av: Attrs, name: string) {
    name in av ==> av[name].S?
  }

  predicate NumberOk(av: Attrs, name: string) {
    name in av ==> av[name].N?
  }

  predicate ModelKinds(av: Attrs) {
    && TextOk(av, "ID") && TextOk(av, "Type") && NumberOk(av, "CreatedAt") && TextOk(av, "CreatedBy")
    && NumberOk(av, "UpdatedAt") && TextOk(av, "UpdatedBy") && NumberOk(av, "Version")
  }

  function TextAt(av: Attrs, name: string, keep: string): string
    requires TextOk(av, name)
  {
    if name in av then av[name].s else keep
  }

  function NumberAt(av: Attrs, name: string, keep: int): int
    requires NumberOk(av, name)
  {
    if name in av then av[name].n else keep
  }

  /** A time as storage gives it back. */
  function StoredTime(codec: Codec, instant: int): Time {
    Time(instant, codec.timeText(instant))
  }

  function TimeAt(codec: Codec, av: Attrs, name: string, keep: Time): Time
    requires NumberOk(av, name)
  {
    if name in av then StoredTime(codec, av[name].n) else keep
  }

  /** The Model part of a record, over the destination's. */
  function ModelPart(codec: Codec, av: Attrs, dst: Entity): Entity
    requires ModelKinds(av)
  {
    Entity(
      dst.t, TextAt(av, "ID", dst.id), TextAt(av, "Type", dst.typ),
      TimeAt(codec, av, "CreatedAt", dst.createdAt), TextAt(av, "CreatedBy", dst.createdBy),
      TimeAt(codec, av, "UpdatedAt", dst.updatedAt), TextAt(av, "UpdatedBy", dst.updatedBy),
      NumberAt(av, "Version", dst.version), dst.fields)
  }

  predicate FieldKinds(av: Attrs, fs: seq<Field>) {
    forall f <- fs :: !f.ignored && f.attr in av ==> SameKind(av[f.attr], f.zero)
  }

  function ReadFields(av: Attrs, fs: seq<Field>, keep: map<string, Value>): map<string, Value> {
    if fs == [] then keep
    else
      var n := |fs| - 1;
      var m := ReadFields(av, fs[..n], keep);
      if !fs[n].ignored && fs[n].attr in av then m[fs[n].name := av[fs[n].attr]] else m
  }

  datatype Read = Read(ok: bool, e: Entity)

  /** attributevalue.UnmarshalMap: an attribute of the wrong kind fails; a missing one leaves
      the destination's field alone. */
  function UnmarshalMap(codec: Codec, fs: seq<Field>, av: Attrs, dst: Entity): Read {
    if !ModelKinds(av) || !FieldKinds(av, fs) then Read(false, dst)
    else Read(true, ModelPart(codec, av, dst).(fields := ReadFields(av, fs, dst.fields)))
  }

  datatype Pending = Pending(name: string, data: seq<Byte>)

  datatype Extracted = Extracted(filtered: Attrs, pending: seq<Pending>)

  function Extract(fs: seq<Field>, names: seq<string>, av: Attrs): Extracted {
    if names == [] then Extracted(av, [])
    else
      var n := |names| - 1;
      var x := Extract(fs, names[..n], av);
      var attr := AttrName(fs, names[n]);
      if attr in x.filtered && x.filtered[attr].B?
      then Extracted(x.filtered - {attr}, x.pending + [Pending(names[n], x.filtered[attr].b)])
      else x
  }

  /** extractCompressedFields. */
  method ExtractCompressedFields(t: StructType, names: seq<string>, av: Attrs)
    returns (filtered: Attrs, pending: seq<Pending>)
    ensures Extracted(filtered, pending) == Extract(Layout(t), names, av)
  {
    filtered, pending := av, [];
    for i := 0 to |names|
      invariant Extracted(filtered, pending) == Extract(Layout(t), names[..i], av)
    {
      assert names[..i + 1][..i] == names[..i];
      var attr := ResolveAttrName(t, names[i]);
      if attr in filtered && filtered[attr].B? {
        pending := pending + [Pending(names[i], filtered[attr].b)];
        filtered := filtered - {attr};
      }
    }
    assert names[..|names|] == names;
  }

  /** A packed value, decoded into a field with the given zero. */
  function UnpackAs(codec: Codec, data: seq<Byte>, zero: Value): Option<Value> {
    var v := codec.unpack(data, zero);
    if v.Some? && SameKind(v.value, zero) then v else None
  }

  function Applied(codec: Codec, fs: seq<Field>, e: Entity, pending: seq<Pending>): Read
    decreases |pending|
  {
    if pending == [] then Read(true, e)
    else
      var p := pending[0];
      var f := Find(fs, p.name);
      if f.None? then Applied(codec, fs, e, pending[1..])
      else
        var v := UnpackAs(codec, p.data, f.value.zero);
        if v.None? then Read(false, e)
        else Applied(codec, fs, e.(fields := e.fields[p.name := v.value]), pending[1..])
  }

  /** applyPendingCompressedFields: a value that does not fit its field's kind fails like one
      that does not unpack, and fields set before a failure stay set. */
  method ApplyPendingCompressedFields(codec: Codec, dst: Item, pending: seq<Pending>) returns (ok: bool)
    modifies dst
    ensures Read(ok, dst.View()) == Applied(codec, Layout(dst.t), old(dst.View()), pending)
  {
    var fs := Layout(dst.t);
    for i := 0 to |pending|
      invariant Applied(codec, fs, old(dst.View()), pending) == Applied(codec, fs, dst.View(), pending[i..])
    {
      assert pending[i..][1..] == pending[i + 1..];
      var f := Find(fs, pending[i].name);
      if f.Some? {
        var v := UnpackAs(codec, pending[i].data, f.value.zero);
        if v.None? { return false; }
        dst.fields := dst.fields[pending[i].name := v.value];
      }
    }
    return true;
  }

  function UnmarshalWith(codec: Codec, fs: seq<Field>, x: Extracted, dst: Entity): Read {
    var r := UnmarshalMap(codec, fs, x.filtered, dst);
    if r.ok then Applied(codec, fs, r.e, x.pending) else r
  }

  function Unmarshalled(codec: Codec, av: Attrs, dst: Entity): Read {
    var fs := Layout(dst.t);
    UnmarshalWith(codec, fs, Extract(fs, CompressNames(fs), av), dst)
  }

  /** unmarshalItemInto. */
  method UnmarshalItemInto(codec: Codec, av: Attrs, dst: Item) returns (ok: bool)
    modifies dst
    ensures Read(ok, dst.View()) == Unmarshalled(codec, av, old(dst.View()))
  {
    var names := ParseCompressFields(dst.t);
    var filtered, pending := ExtractCompressedFields(dst.t, names, av);
    var r := UnmarshalMap(codec, Layout(dst.t), filtered, dst.View());
    if !r.ok { return false; }
    dst.Fill(r.e);
    ok := ApplyPendingCompressedFields(codec, dst, pending);
  }

  // ----- Writing, field by field -----

  lemma {:induction false} NativeAt(fs: seq<Field>, vals: map<string, Value>, base: Attrs, attr: string)
    requires NamesOf(fs) <= vals.Keys && Distinct(fs)
    ensures var m := NativeFields(fs, vals, base);
            && (forall f <- fs | f.attr == attr :: if f.ignored then attr in m <==> attr in base
                                                   else attr in m && m[attr] == vals[f.name])
            && ((forall f <- fs :: f.attr != attr) ==>
                  (attr in m <==> attr in base) && (attr in m ==> m[attr] == base[attr]))
  {
    if fs == [] {
    } else {
      var n := |fs| - 1;
      assert forall f <- fs[..n] :: f in fs;
      NativeAt(fs[..n], vals, base, attr);
      forall f <- fs | f != fs[n] ensures f in fs[..n] && f.attr != fs[n].attr {
        var i :| 0 <= i < |fs| && fs[i] == f;
      }
      assert fs[n].name in NamesOf(fs);
    }
  }

  lemma PackStep(codec: Codec, fs: seq<Field>, vals: map<string, Value>, base: Attrs)
    requires fs != [] && NamesOf(fs) <= vals.Keys && PackFields(codec, fs, vals, base).Some?
    ensures var n := |fs| - 1; var f := fs[n];
            && NamesOf(fs[..n]) <= vals.Keys && f.name in vals && PackFields(codec, fs[..n], vals, base).Some?
            && (f.compressed ==> codec.pack(vals[f.name]).Some?)
            && PackFields(codec, fs, vals, base).value
               == if f.compressed
                  then PackFields(codec, fs[..n], vals, base).value[f.attr := B(codec.pack(vals[f.name]).value)]
                  else PackFields(codec, fs[..n], vals, base).value
  {
    var n := |fs| - 1;
    assert forall f <- fs[..n] :: f in fs;
    assert fs[n] in fs && fs[n].name in NamesOf(fs);
  }

  lemma {:induction false} PackAt(codec: Codec, fs: seq<Field>, vals: map<string, Value>, base: Attrs, attr: string)
    requires NamesOf(fs) <= vals.Keys && Distinct(fs) && PackFields(codec, fs, vals, base).Some?
    ensures var m := PackFields(codec, fs, vals, base).value;
            && (forall f <- fs | f.attr == attr && f.compressed ::
                  attr in m && codec.pack(vals[f.name]).Some? && m[attr] == B(codec.pack(vals[f.name]).value))
            && ((forall f <- fs :: f.compressed ==> f.attr != attr) ==>
                  (attr in m <==> attr in base) && (attr in m ==> m[attr] == base[attr]))
  {
    if fs == [] {
    } else {
      var n := |fs| - 1;
      PackStep(codec, fs, vals, base);
      PackAt(codec, fs[..n], vals, base, attr);
      assert fs == fs[..n] + [fs[n]];
      forall f <- fs[..n] { LastDiffers(fs, f); }
    }
  }

  /** The fields of a well-formed struct type. */
  predicate Shape(fs: seq<Field>) {
    Distinct(fs) && forall f <- fs :: !ModelName(f.attr)
  }

  lemma FieldMarshalled(codec: Codec, fs: seq<Field>, e: Entity, f: Field)
    requires Shape(fs) && NamesOf(fs) <= e.fields.Keys && f in fs && MarshalWith(codec, fs, e).Some?
    ensures var m := MarshalWith(codec, fs, e).value;
            if f.compressed then
              && f.attr in m && codec.pack(e.fields[f.name]).Some?
              && m[f.attr] == B(codec.pack(e.fields[f.name]).value)
            else if f.ignored then f.attr !in m
            else f.attr in m && m[f.attr] == e.fields[f.name]
  {
    NativeAt(fs, e.fields, ModelAttrs(e), f.attr);
    PackAt(codec, fs, e.fields, MarshalMap(fs, e), f.attr);
    if !f.compressed {
      forall g <- fs | g.attr == f.attr ensures g == f { SameField(fs, f, g); }
    }
    ModelAttrNames(e, f.attr);
  }

  lemma ModelAttrNames(e: Entity, a: string)
    ensures a in ModelAttrs(e) <==> ModelName(a)
  {}

  lemma OtherMarshalled(codec: Codec, fs: seq<Field>, e: Entity, attr: string)
    requires Shape(fs) && NamesOf(fs) <= e.fields.Keys && MarshalWith(codec, fs, e).Some?
    requires forall f <- fs :: f.attr != attr
    ensures var m, base := MarshalWith(codec, fs, e).value, ModelAttrs(e);
            (attr in m <==> attr in base) && (attr in m ==> m[attr] == base[attr])
  {
    NativeAt(fs, e.fields, ModelAttrs(e), attr);
    PackAt(codec, fs, e.fields, MarshalMap(fs, e), attr);
  }

  /** What every field becomes in the record. */
  lemma MarshalledField(codec: Codec, e: Entity, f: Field)
    requires WellTyped(e) && f in Layout(e.t) && Marshalled(codec, e).Some?
    ensures var m := Marshalled(codec, e).value;
            if f.compressed then
              && f.attr in m && codec.pack(e.fields[f.name]).Some?
              && m[f.attr] == B(codec.pack(e.fields[f.name]).value)
            else if f.ignored then f.attr !in m
            else f.attr in m && m[f.attr] == e.fields[f.name]
  {
    FieldMarshalled(codec, Layout(e.t), e, f);
  }

  /** The record holds the Model attributes and the fields' attributes, and nothing else. */
  lemma MarshalledOther(codec: Codec, e: Entity, attr: string)
    requires WellTyped(e) && Marshalled(codec, e).Some?
    requires forall f <- Layout(e.t) :: f.attr != attr
    ensures var m := Marshalled(codec, e).value;
            (attr in m <==> ModelName(attr)) && (attr in m ==> m[attr] == ModelAttrs(e)[attr])
  {
    OtherMarshalled(codec, Layout(e.t), e, attr);
    ModelAttrNames(e, attr);
  }

  predicate AllPack(codec: Codec, fs: seq<Field>, vals: map<string, Value>)
    requires NamesOf(fs) <= vals.Keys
  {
    forall f <- fs :: f.compressed ==> codec.pack(vals[f.name]).Some?
  }

  lemma AllPackSnoc(codec: Codec, fs: seq<Field>, vals: map<string, Value>)
    requires fs != [] && NamesOf(fs) <= vals.Keys
    ensures var n := |fs| - 1;
            && NamesOf(fs[..n]) <= vals.Keys && fs[n].name in vals
            && (AllPack(codec, fs, vals)
                <==> AllPack(codec, fs[..n], vals) && (fs[n].compressed ==> codec.pack(vals[fs[n].name]).Some?))
  {
    var n := |fs| - 1;
    assert forall f <- fs[..n] :: f in fs;
    assert fs[n] in fs && fs[n].name in NamesOf(fs);
    assert fs == fs[..n] + [fs[n]];
  }

  /** Marshalling fails exactly when the codec cannot pack some compressed field. */
  lemma {:induction false} PackSucceeds(codec: Codec, fs: seq<Field>, vals: map<string, Value>, base: Attrs)
    requires NamesOf(fs) <= vals.Keys
    ensures PackFields(codec, fs, vals, base).Some? <==> AllPack(codec, fs, vals)
  {
    if fs == [] {
    } else {
      AllPackSnoc(codec, fs, vals);
      PackSucceeds(codec, fs[..|fs| - 1], vals, base);
    }
  }

  // ----- Reading, field by field -----

  /** The stored value of field f is a packed one. */
  predicate PackedIn(f: Field, av: Attrs) {
    f.compressed && f.attr in av && av[f.attr].B?
  }

  /** A field that is taken over as it is stored. */
  predicate NativeIn(f: Field, av: Attrs) {
    !PackedIn(f, av) && !f.ignored && f.attr in av
  }

  function PendingOf(f: Field, av: Attrs): Pending
    requires PackedIn(f, av)
  {
    Pending(f.name, av[f.attr].b)
  }

  /** Extraction over the compressed fields themselves. */
  function ExtractFields(fs: seq<Field>, av: Attrs): Extracted {
    if fs == [] then Extracted(av, [])
    else
      var n := |fs| - 1;
      var x := ExtractFields(fs[..n], av);
      if PackedIn(fs[n], x.filtered)
      then Extracted(x.filtered - {fs[n].attr}, x.pending + [PendingOf(fs[n], x.filtered)])
      else x
  }

  lemma {:induction false} ExtractIsByField(all: seq<Field>, fs: seq<Field>, av: Attrs)
    requires Distinct(all) && fs <= all
    ensures Extract(all, CompressNames(fs), av) == ExtractFields(fs, av)
  {
    if fs == [] {
    } else {
      var n := |fs| - 1;
      ExtractIsByField(all, fs[..n], av);
      assert fs[n] == all[n];
      FindDistinct(all, fs[n]);
      DropLastName(fs);
    }
  }

  predicate Owes(fs: seq<Field>, av: Attrs, p: Pending) {
    exists f <- fs :: PackedIn(f, av) && p == PendingOf(f, av)
  }

  lemma LastDiffers(fs: seq<Field>, f: Field)
    requires Distinct(fs) && fs != [] && f in fs[..|fs| - 1]
    ensures f in fs && f.name != fs[|fs| - 1].name && f.attr != fs[|fs| - 1].attr
  {
    var i :| 0 <= i < |fs| - 1 && fs[i] == f;
  }

  lemma {:induction false} FilteredAt(fs: seq<Field>, av: Attrs)
    requires Distinct(fs)
    ensures var x := ExtractFields(fs, av).filtered;
            && (forall a | a in av && a !in x :: exists f <- fs :: PackedIn(f, av) && f.attr == a)
            && (forall a <- x :: a in av && x[a] == av[a])
            && (forall f <- fs :: PackedIn(f, av) ==> f.attr !in x)
  {
    if fs == [] {
    } else {
      var n := |fs| - 1;
      FilteredAt(fs[..n], av);
      forall f <- fs[..n] { LastDiffers(fs, f); }
      assert fs == fs[..n] + [fs[n]];
    }
  }

  lemma LastPacked(fs: seq<Field>, av: Attrs)
    requires Distinct(fs) && fs != []
    ensures var n := |fs| - 1; var x := ExtractFields(fs[..n], av).filtered;
            && (PackedIn(fs[n], x) <==> PackedIn(fs[n], av))
            && (PackedIn(fs[n], x) ==> PendingOf(fs[n], x) == PendingOf(fs[n], av))
  {
    var n := |fs| - 1;
    FilteredAt(fs[..n], av);
    forall f <- fs[..n] { LastDiffers(fs, f); }
  }

  lemma PendingStep(fs: seq<Field>, av: Attrs)
    requires Distinct(fs) && fs != []
    ensures var n := |fs| - 1;
            ExtractFields(fs, av).pending
            == ExtractFields(fs[..n], av).pending + if PackedIn(fs[n], av) then [PendingOf(fs[n], av)] else []
  {
    LastPacked(fs, av);
  }

  lemma OwesMore(front: seq<Field>, fs: seq<Field>, av: Attrs, p: Pending)
    requires Owes(front, av, p) && forall f <- front :: f in fs
    ensures Owes(fs, av, p)
  {}

  lemma {:induction false} PendingAt(fs: seq<Field>, av: Attrs)
    requires Distinct(fs)
    ensures var ps := ExtractFields(fs, av).pending;
            && (forall f <- fs :: PackedIn(f, av) ==> PendingOf(f, av) in ps)
            && (forall p <- ps :: Owes(fs, av, p))
  {
    if fs == [] {
    } else {
      var n := |fs| - 1;
      PendingStep(fs, av);
      PendingAt(fs[..n], av);
      assert fs == fs[..n] + [fs[n]];
      forall p <- ExtractFields(fs, av).pending ensures Owes(fs, av, p) {
        if p in ExtractFields(fs[..n], av).pending { OwesMore(fs[..n], fs, av, p); } else { assert fs[n] in fs; }
      }
    }
  }

  /** Setting packed values aside: each of them, and nothing else. */
  lemma ExtractAt(fs: seq<Field>, av: Attrs)
    requires Distinct(fs)
    ensures var x := ExtractFields(fs, av);
            && (forall a | a in av && a !in x.filtered :: exists f <- fs :: PackedIn(f, av) && f.attr == a)
            && (forall a <- x.filtered :: a in av && x.filtered[a] == av[a])
            && (forall f <- fs :: PackedIn(f, av) ==> f.attr !in x.filtered && PendingOf(f, av) in x.pending)
            && (forall p <- x.pending :: Owes(fs, av, p))
  {
    FilteredAt(fs, av);
    PendingAt(fs, av);
  }

  lemma OwedBy(fs: seq<Field>, av: Attrs, f: Field, p: Pending)
    requires Distinct(fs) && f in fs && Owes(fs, av, p) && p.name == f.name
    ensures PackedIn(f, av) && p == PendingOf(f, av)
  {
    var g :| g in fs && PackedIn(g, av) && p == PendingOf(g, av);
    SameField(fs, f, g);
  }

  lemma SameOwed(fs: seq<Field>, av: Attrs, p: Pending, q: Pending)
    requires Distinct(fs) && Owes(fs, av, p) && Owes(fs, av, q) && p.name == q.name
    ensures p == q
  {
    var f :| f in fs && PackedIn(f, av) && p == PendingOf(f, av);
    OwedBy(fs, av, f, q);
  }

  lemma PendingOwed(fs: seq<Field>, av: Attrs)
    requires Distinct(fs)
    ensures forall p <- ExtractFields(fs, av).pending :: Owes(fs, av, p)
  {
    PendingAt(fs, av);
  }

  lemma PendingByField(fs: seq<Field>, av: Attrs)
    requires Distinct(fs)
    ensures forall f <- fs, p <- ExtractFields(fs, av).pending ::
              p.name == f.name ==> PackedIn(f, av) && p == PendingOf(f, av)
  {
    PendingOwed(fs, av);
    forall f <- fs, p <- ExtractFields(fs, av).pending | p.name == f.name
      ensures PackedIn(f, av) && p == PendingOf(f, av)
    {
      OwedBy(fs, av, f, p);
    }
  }

  lemma PendingOnce(fs: seq<Field>, av: Attrs)
    requires Distinct(fs)
    ensures var ps := ExtractFields(fs, av).pending;
            forall p, q | p in ps && q in ps && p.name == q.name :: p == q
  {
    PendingOwed(fs, av);
    var ps := ExtractFields(fs, av).pending;
    forall p, q | p in ps && q in ps && p.name == q.name ensures p == q {
      SameOwed(fs, av, p, q);
    }
  }

  lemma PendingDistinct(fs: seq<Field>, av: Attrs)
    requires Distinct(fs)
    ensures var ps := ExtractFields(fs, av).pending;
            && (forall p, q | p in ps && q in ps && p.name == q.name :: p == q)
            && (forall f <- fs, p <- ps :: p.name == f.name ==> PackedIn(f, av) && p == PendingOf(f, av))
  {
    PendingByField(fs, av);
    PendingOnce(fs, av);
  }

  lemma ReadStep(av: Attrs, fs: seq<Field>, keep: map<string, Value>, name: string)
    requires fs != [] && name in ReadFields(av, fs[..|fs| - 1], keep)
    ensures var n := |fs| - 1;
            name in ReadFields(av, fs, keep) &&
            ReadFields(av, fs, keep)[name]
            == if fs[n].name == name && !fs[n].ignored && fs[n].attr in av then av[fs[n].attr]
               else ReadFields(av, fs[..n], keep)[name]
  {}

  lemma {:induction false} ReadFieldsAt(av: Attrs, fs: seq<Field>, keep: map<string, Value>, name: string)
    requires Distinct(fs) && NamesOf(fs) <= keep.Keys && name in keep
    ensures var m := ReadFields(av, fs, keep);
            && m.Keys == keep.Keys
            && (forall f <- fs | f.name == name ::
                  m[name] == if !f.ignored && f.attr in av then av[f.attr] else keep[name])
            && ((forall f <- fs :: f.name != name) ==> m[name] == keep[name])
  {
    ReadKeys(av, fs, keep);
    if fs == [] {
    } else {
      var n := |fs| - 1;
      assert forall f <- fs[..n] :: f in fs;
      ReadFieldsAt(av, fs[..n], keep, name);
      ReadStep(av, fs, keep, name);
      assert fs == fs[..n] + [fs[n]];
      forall f <- fs | f.name == name && f != fs[n] ensures f in fs[..n] {}
      if fs[n].name == name {
        forall f <- fs[..n] ensures f.name != name { LastDiffers(fs, f); }
      }
    }
  }

  /** What a pending value becomes in its field. */
  function UnpackPending(codec: Codec, fs: seq<Field>, p: Pending): Option<Value>
    requires Find(fs, p.name).Some?
  {
    UnpackAs(codec, p.data, Find(fs, p.name).value.zero)
  }

  lemma {:induction false} AppliedAt(codec: Codec, fs: seq<Field>, e: Entity, pending: seq<Pending>, name: string)
    requires forall p <- pending :: p.name in e.fields && Find(fs, p.name).Some?
    requires forall p, q | p in pending && q in pending && p.name == q.name :: p == q
    ensures var r := Applied(codec, fs, e, pending);
            && (r.ok <==> forall p <- pending :: UnpackPending(codec, fs, p).Some?)
            && r.e.fields.Keys == e.fields.Keys && r.e == e.(fields := r.e.fields)
            && (r.ok && name in e.fields ==>
                  && (forall p <- pending | p.name == name :: Some(r.e.fields[name]) == UnpackPending(codec, fs, p))
                  && ((forall p <- pending :: p.name != name) ==> r.e.fields[name] == e.fields[name]))
    decreases |pending|
  {
    if pending == [] {
    } else {
      assert pending == [pending[0]] + pending[1..];
      assert pending[0] in pending;
      var v := UnpackPending(codec, fs, pending[0]);
      if v.Some? {
        var e' := e.(fields := e.fields[pending[0].name := v.value]);
        AppliedAt(codec, fs, e', pending[1..], name);
        if p :| p in pending[1..] && p.name == pending[0].name {
          assert p in pending && p == pending[0];
        }
      }
    }
  }

  /** Where the value of field f comes from; None when a packed value does not unpack to
      the field's kind. */
  function FieldSource(codec: Codec, av: Attrs, f: Field, keep: Value): Option<Value> {
    if PackedIn(f, av) then UnpackAs(codec, av[f.attr].b, f.zero)
    else if NativeIn(f, av) then Some(av[f.attr])
    else Some(keep)
  }

  /** The record is readable into the given fields. */
  predicate Readable(codec: Codec, av: Attrs, fs: seq<Field>) {
    && ModelKinds(av)
    && (forall f <- fs :: NativeIn(f, av) ==> SameKind(av[f.attr], f.zero))
    && (forall f <- fs :: PackedIn(f, av) ==> UnpackAs(codec, av[f.attr].b, f.zero).Some?)
  }

  lemma FilteredAttr(fs: seq<Field>, av: Attrs, f: Field)
    requires Distinct(fs) && f in fs
    ensures f.attr in ExtractFields(fs, av).filtered <==> f.attr in av && !PackedIn(f, av)
  {
    ExtractAt(fs, av);
    var x := ExtractFields(fs, av).filtered;
    if f.attr in av && f.attr !in x {
      var g :| g in fs && PackedIn(g, av) && g.attr == f.attr;
      SameField(fs, f, g);
    }
  }

  lemma FilteredKinds(fs: seq<Field>, av: Attrs)
    requires Shape(fs)
    ensures var x := ExtractFields(fs, av).filtered;
            && (forall n | ModelName(n) :: (n in x <==> n in av) && (n in av ==> x[n] == av[n]))
            && (FieldKinds(x, fs) <==> forall f <- fs :: NativeIn(f, av) ==> SameKind(av[f.attr], f.zero))
  {
    ExtractAt(fs, av);
    forall f <- fs { FilteredAttr(fs, av, f); }
  }

  lemma FieldRead(codec: Codec, fs: seq<Field>, av: Attrs, dst: Entity, f: Field)
    requires Distinct(fs) && NamesOf(fs) <= dst.fields.Keys && f in fs
    requires UnmarshalWith(codec, fs, ExtractFields(fs, av), dst).ok
    ensures var r := UnmarshalWith(codec, fs, ExtractFields(fs, av), dst).e;
            f.name in r.fields && Some(r.fields[f.name]) == FieldSource(codec, av, f, dst.fields[f.name])
  {
    var x := ExtractFields(fs, av);
    var m := UnmarshalMap(codec, fs, x.filtered, dst).e;
    ExtractAt(fs, av);
    PendingDistinct(fs, av);
    assert f.name in NamesOf(fs);
    ReadFieldsAt(x.filtered, fs, dst.fields, f.name);
    PendingNames(fs, av);
    AppliedAt(codec, fs, m, x.pending, f.name);
    FilteredAttr(fs, av, f);
    if PackedIn(f, av) {
      assert PendingOf(f, av) in x.pending;
      UnpackOwed(codec, fs, av, f);
    }
  }

  lemma PendingNames(fs: seq<Field>, av: Attrs)
    requires Distinct(fs)
    ensures forall p <- ExtractFields(fs, av).pending :: p.name in NamesOf(fs) && Find(fs, p.name).Some?
  {
    ExtractAt(fs, av);
    forall p <- ExtractFields(fs, av).pending ensures p.name in NamesOf(fs) && Find(fs, p.name).Some? {
      assert Owes(fs, av, p);
      var f :| f in fs && PackedIn(f, av) && p == PendingOf(f, av);
      FindDistinct(fs, f);
    }
  }

  lemma UnpackOwed(codec: Codec, fs: seq<Field>, av: Attrs, f: Field)
    requires Distinct(fs) && f in fs && PackedIn(f, av)
    ensures Find(fs, f.name) == Some(f)
    ensures UnpackPending(codec, fs, PendingOf(f, av)) == UnpackAs(codec, av[f.attr].b, f.zero)
  {
    FindDistinct(fs, f);
  }

  /** All pending values fit exactly when all packed fields do. */
  predicate Unpackable(codec: Codec, fs: seq<Field>, pending: seq<Pending>) {
    forall p <- pending :: Find(fs, p.name).Some? ==> UnpackPending(codec, fs, p).Some?
  }

  lemma PendingUnpack(codec: Codec, fs: seq<Field>, av: Attrs)
    requires Distinct(fs)
    ensures Unpackable(codec, fs, ExtractFields(fs, av).pending)
            <==> forall f <- fs :: PackedIn(f, av) ==> UnpackAs(codec, av[f.attr].b, f.zero).Some?
  {
    PendingAt(fs, av);
    var ps := ExtractFields(fs, av).pending;
    if Unpackable(codec, fs, ps) {
      forall f <- fs ensures PackedIn(f, av) ==> UnpackAs(codec, av[f.attr].b, f.zero).Some? {
        if PackedIn(f, av) {
          assert PendingOf(f, av) in ps;
          UnpackOwed(codec, fs, av, f);
        }
      }
    }
    if forall f <- fs :: PackedIn(f, av) ==> UnpackAs(codec, av[f.attr].b, f.zero).Some? {
      forall p <- ps ensures Find(fs, p.name).Some? ==> UnpackPending(codec, fs, p).Some? {
        assert Owes(fs, av, p);
        var f :| f in fs && PackedIn(f, av) && p == PendingOf(f, av);
        UnpackOwed(codec, fs, av, f);
      }
    }
  }

  lemma FieldwiseRead(codec: Codec, fs: seq<Field>, av: Attrs, dst: Entity)
    requires Shape(fs) && NamesOf(fs) <= dst.fields.Keys
    ensures var r := UnmarshalWith(codec, fs, ExtractFields(fs, av), dst);
            && (r.ok <==> Readable(codec, av, fs))
            && (r.ok ==> r.e.fields.Keys == dst.fields.Keys && r.e == ModelPart(codec, av, dst).(fields := r.e.fields))
  {
    var x := ExtractFields(fs, av);
    FilteredKinds(fs, av);
    ModelKindsSame(x.filtered, av);
    var m := UnmarshalMap(codec, fs, x.filtered, dst);
    if m.ok {
      ModelPartSame(codec, x.filtered, av, dst);
      ReadKeys(x.filtered, fs, dst.fields);
      PendingNames(fs, av);
      PendingDistinct(fs, av);
      PendingUnpack(codec, fs, av);
      AppliedAt(codec, fs, m.e, x.pending, "");
    }
  }

  /** Reading, field by field, over current, legacy and partial records alike. It succeeds
      exactly when every packed value unpacks to, and every other value has, its field's kind. */
  lemma UnmarshalledFieldwise(codec: Codec, av: Attrs, dst: Entity)
    requires WellTyped(dst)
    ensures var r, fs := Unmarshalled(codec, av, dst), Layout(dst.t);
            && (r.ok <==> Readable(codec, av, fs))
            && (r.ok ==>
                  && r.e.fields.Keys == dst.fields.Keys
                  && r.e == ModelPart(codec, av, dst).(fields := r.e.fields)
                  && forall f <- fs ::
                       Some(r.e.fields[f.name]) == FieldSource(codec, av, f, dst.fields[f.name]))
  {
    var fs := Layout(dst.t);
    ExtractIsByField(fs, fs, av);
    FieldwiseRead(codec, fs, av, dst);
    if Unmarshalled(codec, av, dst).ok {
      forall f <- fs { FieldRead(codec, fs, av, dst, f); }
    }
  }

  /** A packed value is read only by decoding it: if that fails, or gives a value of another
      kind, the whole read fails. */
  lemma PackedRead(codec: Codec, av: Attrs, dst: Entity, f: Field)
    requires WellTyped(dst) && f in Layout(dst.t) && f.compressed && f.attr in av && av[f.attr].B?
    ensures var r := Unmarshalled(codec, av, dst);
            r.ok ==>
              && f.name in r.e.fields && codec.unpack(av[f.attr].b, f.zero) == Some(r.e.fields[f.name])
              && SameKind(r.e.fields[f.name], f.zero)
  {
    UnmarshalledFieldwise(codec, av, dst);
    assert f.name in NamesOf(Layout(dst.t));
    assert PackedIn(f, av);
  }

  lemma {:induction false} ReadKeys(av: Attrs, fs: seq<Field>, keep: map<string, Value>)
    requires NamesOf(fs) <= keep.Keys
    ensures ReadFields(av, fs, keep).Keys == keep.Keys
  {
    if fs == [] {
    } else {
      var n := |fs| - 1;
      assert forall f <- fs[..n] :: f in fs;
      ReadKeys(av, fs[..n], keep);
      assert fs[n].name in NamesOf(fs);
    }
  }

  lemma ModelKindsSame(x: Attrs, av: Attrs)
    requires forall n | ModelName(n) :: (n in x <==> n in av) && (n in av ==> x[n] == av[n])
    ensures ModelKinds(av) <==> ModelKinds(x)
  {
    assert ModelName("ID") && ModelName("Type") && ModelName("CreatedAt") && ModelName("CreatedBy");
    assert ModelName("UpdatedAt") && ModelName("UpdatedBy") && ModelName("Version");
  }

  lemma ModelPartSame(codec: Codec, x: Attrs, av: Attrs, dst: Entity)
    requires forall n | ModelName(n) :: (n in x <==> n in av) && (n in av ==> x[n] == av[n])
    requires ModelKinds(x) && ModelKinds(av)
    ensures ModelPart(codec, x, dst) == ModelPart(codec, av, dst)
  {
    assert ModelName("ID") && ModelName("Type") && ModelName("CreatedAt") && ModelName("CreatedBy");
    assert ModelName("UpdatedAt") && ModelName("UpdatedBy") && ModelName("Version");
  }

  // ----- Round trip -----

  /** What a record can give back: times as storage prints them, and a field that is neither
      stored natively nor compressed as its zero. */
  function Kept(codec: Codec, e: Entity): Entity
    requires WellTyped(e)
  {
    e.(createdAt := StoredTime(codec, e.createdAt.instant), updatedAt := StoredTime(codec, e.updatedAt.instant),
       fields := map n | n in e.fields ::
         var f := Find(Layout(e.t), n);
         if f.Some? && f.value.ignored && !f.value.compressed then f.value.zero else e.fields[n])
  }

  ghost predicate StoredRight(codec: Codec, e: Entity, av: Attrs, f: Field)
    requires f.name in e.fields
  {
    if f.ignored && !f.compressed then !PackedIn(f, av) && !NativeIn(f, av)
    else
      && f.attr in av
      && (PackedIn(f, av) ==> UnpackAs(codec, av[f.attr].b, f.zero) == Some(e.fields[f.name]))
      && (!PackedIn(f, av) ==> NativeIn(f, av) && av[f.attr] == e.fields[f.name])
  }

  lemma StoredAs(codec: Codec, fs: seq<Field>, e: Entity, extra: Attrs, f: Field)
    requires Faithful(codec) && Shape(fs) && NamesOf(fs) <= e.fields.Keys && MarshalWith(codec, fs, e).Some?
    requires f in fs && f.attr !in extra && f.name in e.fields && SameKind(e.fields[f.name], f.zero)
    ensures StoredRight(codec, e, MarshalWith(codec, fs, e).value + extra, f)
  {
    FieldMarshalled(codec, fs, e, f);
  }

  /** The record carries the entity's Model fields. */
  predicate HoldsModel(av: Attrs, e: Entity) {
    && "ID" in av && av["ID"] == S(e.id) && "Type" in av && av["Type"] == S(e.typ)
    && "CreatedAt" in av && av["CreatedAt"] == N(e.createdAt.instant)
    && "CreatedBy" in av && av["CreatedBy"] == S(e.createdBy)
    && "UpdatedAt" in av && av["UpdatedAt"] == N(e.updatedAt.instant)
    && "UpdatedBy" in av && av["UpdatedBy"] == S(e.updatedBy)
    && "Version" in av && av["Version"] == N(e.version)
  }

  lemma ModelStored(codec: Codec, fs: seq<Field>, e: Entity)
    requires Shape(fs) && NamesOf(fs) <= e.fields.Keys && MarshalWith(codec, fs, e).Some?
    ensures HoldsModel(MarshalWith(codec, fs, e).value, e)
  {
    OtherMarshalled(codec, fs, e, "ID");
    OtherMarshalled(codec, fs, e, "Type");
    OtherMarshalled(codec, fs, e, "CreatedAt");
    OtherMarshalled(codec, fs, e, "CreatedBy");
    OtherMarshalled(codec, fs, e, "UpdatedAt");
    OtherMarshalled(codec, fs, e, "UpdatedBy");
    OtherMarshalled(codec, fs, e, "Version");
  }

  lemma ModelPartHeld(codec: Codec, av: Attrs, e: Entity, dst: Entity)
    requires HoldsModel(av, e) && dst.t == e.t && WellTyped(e)
    ensures ModelKinds(av)
    ensures ModelPart(codec, av, dst).(fields := Kept(codec, e).fields) == Kept(codec, e)
  {}

  lemma HeldWith(av: Attrs, extra: Attrs, e: Entity)
    requires HoldsModel(av, e) && forall a <- extra :: !ModelName(a)
    ensures HoldsModel(av + extra, e)
  {
    assert "ID" !in extra && "Type" !in extra && "CreatedAt" !in extra && "CreatedBy" !in extra;
    assert "UpdatedAt" !in extra && "UpdatedBy" !in extra && "Version" !in extra;
  }

  /** The stored record of an entity, with attributes the library adds under names of its
      own, reads back as the entity. */
  lemma RoundTrip(codec: Codec, e: Entity, extra: Attrs)
    requires Faithful(codec) && WellTyped(e) && Marshalled(codec, e).Some?
    requires forall a <- extra :: !ModelName(a) && forall f <- Layout(e.t) :: f.attr != a
    ensures Unmarshalled(codec, Marshalled(codec, e).value + extra, ZeroEntity(e.t, NIL_ID))
            == Read(true, Kept(codec, e))
  {
    var fs, zero := Layout(e.t), ZeroEntity(e.t, NIL_ID);
    var av := Marshalled(codec, e).value + extra;
    ZeroWellTyped(e.t, NIL_ID);
    ModelStored(codec, fs, e);
    HeldWith(Marshalled(codec, e).value, extra, e);
    ModelPartHeld(codec, av, e, zero);
    forall f <- fs ensures StoredRight(codec, e, av, f) { StoredAs(codec, fs, e, extra, f); }
    UnmarshalledFieldwise(codec, av, zero);
    assert Readable(codec, av, fs);
    var r := Unmarshalled(codec, av, zero);
    FieldsKept(codec, e, av, r.e.fields);
  }

  lemma FieldsKept(codec: Codec, e: Entity, av: Attrs, got: map<string, Value>)
    requires WellTyped(e) && got.Keys == e.fields.Keys
    requires forall f <- Layout(e.t) :: StoredRight(codec, e, av, f)
    requires forall f <- Layout(e.t) :: Some(got[f.name]) == FieldSource(codec, av, f, f.zero)
    ensures got == Kept(codec, e).fields
  {
    var fs := Layout(e.t);
    forall n <- e.fields ensures got[n] == Kept(codec, e).fields[n] {
      var f :| f in fs && f.name == n;
      FindDistinct(fs, f);
      assert StoredRight(codec, e, av, f);
    }
  }
}
