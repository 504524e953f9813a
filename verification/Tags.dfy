/** Struct tags: the pk/sk clause grammar, the compress marker and attribute names. */
module Tags {
  import opened Text
  import opened Store

  /** A field other than the embedded Model, with its dynamo and dynamodbav tags and the
      zero value of its Go type. */
  datatype StructField =
    StructField(name: string, dynamoTag: Option<string>, avTag: Option<string>, zero: Value)

  /** A struct embedding Model; modelTag is the dynamo tag on the embedded field. */
  datatype StructType = StructType(name: string, modelTag: Option<string>, fields: seq<StructField>)

  datatype Clauses = Clauses(pk: seq<string>, sk: seq<string>)

  const NO_CLAUSES := Clauses([], [])

  // ----- Parsing -----

  /** The trimmed, non-empty parts. */
  function Words(parts: seq<string>): seq<string> {
    if parts == [] then []
    else (if Trim(parts[0]) == "" then [] else [Trim(parts[0])]) + Words(parts[1..])
  }

  function FieldsOf(val: string): seq<string> {
    Words(Split(val, ','))
  }

  lemma {:induction false} WordsSnoc(parts: seq<string>, last: string)
    ensures Words(parts + [last]) == Words(parts) + (if Trim(last) == "" then [] else [Trim(last)])
  {
    if parts == [] {
      assert parts + [last] == [last];
    } else {
      assert (parts + [last])[1..] == parts[1..] + [last];
      WordsSnoc(parts[1..], last);
    }
  }

  /** splitFields. */
  method SplitFields(val: string) returns (fields: seq<string>)
    ensures fields == FieldsOf(val)
    ensures forall f <- fields :: f != ""
  {
    var parts := Split(val, ',');
    fields := [];
    for i := 0 to |parts|
      invariant fields == Words(parts[..i])
      invariant forall f <- fields :: f != ""
    {
      assert parts[..i + 1] == parts[..i] + [parts[i]];
      WordsSnoc(parts[..i], parts[i]);
      var p := Trim(parts[i]);
      if p != "" {
        fields := fields + [p];
      }
    }
    assert parts[..|parts|] == parts;
  }

  /** What one clause does to the field lists read so far. */
  function ReadClause(clause: string, acc: Clauses): Clauses {
    var c := Trim(clause);
    var i := IndexOf(c, ':');
    if i == |c| then acc
    else if Trim(c[..i]) == "pk" then acc.(pk := FieldsOf(c[i + 1..]))
    else if Trim(c[..i]) == "sk" then acc.(sk := FieldsOf(c[i + 1..]))
    else acc
  }

  function ReadClauses(clauses: seq<string>): Clauses {
    if clauses == [] then NO_CLAUSES
    else ReadClause(clauses[|clauses| - 1], ReadClauses(clauses[..|clauses| - 1]))
  }

  function ModelClauses(tag: Option<string>): Clauses {
    if tag.None? || Trim(tag.value) == "" then NO_CLAUSES else ReadClauses(Split(tag.value, ';'))
  }

  /** One pass of the loop of parseModelClauses. */
  method ParseClause(text: string, pk: seq<string>, sk: seq<string>)
    returns (pkFields: seq<string>, skFields: seq<string>)
    ensures Clauses(pkFields, skFields) == ReadClause(text, Clauses(pk, sk))
  {
    pkFields, skFields := pk, sk;
    var clause := Trim(text);
    if clause == "" { return; }
    var cut := IndexOf(clause, ':');
    if cut == |clause| { return; }
    var key := Trim(clause[..cut]);
    var fields := SplitFields(clause[cut + 1..]);
    if key == "pk" {
      pkFields := fields;
    } else if key == "sk" {
      skFields := fields;
    }
  }

  /** parseModelClauses. */
  method ParseModelClauses(tag: Option<string>) returns (pkFields: seq<string>, skFields: seq<string>)
    ensures Clauses(pkFields, skFields) == ModelClauses(tag)
  {
    pkFields, skFields := [], [];
    if tag.None? || Trim(tag.value) == "" { return; }
    var clauses := Split(tag.value, ';');
    for i := 0 to |clauses|
      invariant Clauses(pkFields, skFields) == ReadClauses(clauses[..i])
    {
      assert clauses[..i + 1][..i] == clauses[..i];
      pkFields, skFields := ParseClause(clauses[i], pkFields, skFields);
    }
    assert clauses[..|clauses|] == clauses;
  }

  // ----- Rendering, and parsing any rendering -----

  /** A word with white space on both sides; an empty word is an empty slot. */
  datatype Padded = Padded(before: string, word: string, after: string) {
    function Text(): string { before + word + after }

    predicate Valid() { Blank(before) && Blank(after) && Tight(word) }
  }

  /** Any clause of any tag: a key with its comma-separated slots, or a malformed one. */
  datatype Rendered = Fields(key: Padded, slots: seq<Padded>) | Malformed(text: string) {
    function Text(): string {
      match this
      case Fields(key, slots) => key.Text() + ":" + Join(SlotTexts(slots), ',')
      case Malformed(text) => text
    }

    predicate Valid() {
      match this
      case Fields(key, slots) =>
        && key.Valid() && Free(key.word, ':') && Free(key.word, ';')
        && slots != []
        && forall s <- slots :: s.Valid() && Free(s.word, ',') && Free(s.word, ';')
      case Malformed(text) => Free(text, ':') && Free(text, ';')
    }
  }

  function SlotTexts(slots: seq<Padded>): seq<string> {
    seq(|slots|, i requires 0 <= i < |slots| => slots[i].Text())
  }

  function ClauseTexts(cs: seq<Rendered>): seq<string> {
    seq(|cs|, i requires 0 <= i < |cs| => cs[i].Text())
  }

  function RenderTag(cs: seq<Rendered>): string {
    Join(ClauseTexts(cs), ';')
  }

  /** The field names a slot list holds. */
  function Named(slots: seq<Padded>): seq<string> {
    if slots == [] then []
    else (if slots[0].word == "" then [] else [slots[0].word]) + Named(slots[1..])
  }

  /** The fields of the last clause with the given key. */
  function LastFields(cs: seq<Rendered>, key: string): seq<string> {
    if cs == [] then []
    else
      var c := cs[|cs| - 1];
      if c.Fields? && c.key.word == key then Named(c.slots) else LastFields(cs[..|cs| - 1], key)
  }

  lemma {:induction false} WordsOfSlots(slots: seq<Padded>)
    requires forall s <- slots :: s.Valid()
    ensures Words(SlotTexts(slots)) == Named(slots)
  {
    if slots == [] {
    } else {
      assert slots[0] in slots;
      TrimPadded(slots[0].before, slots[0].word, slots[0].after);
      assert SlotTexts(slots)[1..] == SlotTexts(slots[1..]);
      WordsOfSlots(slots[1..]);
    }
  }

  lemma BlankIsFree(s: string, c: char)
    requires Blank(s) && !IsSpace(c)
    ensures Free(s, c)
  {}

  lemma {:induction false} TrimLeftStops(x: string, c: char, y: string)
    requires !IsSpace(c)
    ensures TrimLeft(x + [c] + y) == TrimLeft(x) + [c] + y
  {
    if x == "" {
      assert x + [c] + y == [c] + y;
    } else if IsSpace(x[0]) {
      assert (x + [c] + y)[1..] == x[1..] + [c] + y;
      TrimLeftStops(x[1..], c, y);
    }
  }

  lemma {:induction false} TrimRightStops(x: string, c: char, y: string)
    requires !IsSpace(c)
    ensures TrimRight(x + [c] + y) == x + [c] + TrimRight(y)
  {
    if y == "" {
      assert x + [c] + y == x + [c];
    } else if IsSpace(y[|y| - 1]) {
      assert (x + [c] + y)[..|x + [c] + y| - 1] == x + [c] + y[..|y| - 1];
      TrimRightStops(x, c, y[..|y| - 1]);
    }
  }

  /** The same parts, with the last one longer. */
  predicate LastGrown(p: seq<string>, q: seq<string>, after: string) {
    p != [] && |q| == |p| && q == p[..|p| - 1] + [p[|p| - 1] + after]
  }

  lemma GrownBehind(x: string, p: seq<string>, q: seq<string>, after: string)
    requires LastGrown(p, q, after)
    ensures LastGrown([x] + p, [x] + q, after)
  {
    assert ([x] + p)[..|p|] == [x] + p[..|p| - 1];
  }

  lemma SplitAt(v: string, after: string, i: nat)
    requires i < |v| && i == IndexOf(v, ',')
    ensures Split(v, ',') == [v[..i]] + Split(v[i + 1..], ',')
    ensures Split(v + after, ',') == [v[..i]] + Split(v[i + 1..] + after, ',')
  {
    assert v + after == v[..i] + [','] + (v[i + 1..] + after);
    FirstSeparator(v[..i], v[i + 1..] + after, ',');
    assert (v + after)[..i] == v[..i];
    assert (v + after)[i + 1..] == v[i + 1..] + after;
  }

  lemma {:induction false} SplitBlankTail(v: string, after: string)
    requires Free(after, ',')
    ensures LastGrown(Split(v, ','), Split(v + after, ','), after)
    decreases |v|
  {
    var i := IndexOf(v, ',');
    if i == |v| {
      NoSeparator(v + after, ',');
    } else {
      SplitAt(v, after, i);
      SplitBlankTail(v[i + 1..], after);
      GrownBehind(v[..i], Split(v[i + 1..], ','), Split(v[i + 1..] + after, ','), after);
    }
  }

  lemma TrimBlankTail(p: string, after: string)
    requires Blank(after)
    ensures Trim(p + after) == Trim(p)
  {
    var b := TrimLeftSplits(p);
    var core := TrimLeft(p);
    if core == "" {
      TrimPadded(p + after, "", "");
      assert p + after + "" + "" == p + after;
      TrimPadded(p, "", "");
      assert p + "" + "" == p;
    } else {
      assert p + after == b + (core + after);
      TrimLeftBlank(b, core + after);
      assert TrimLeft(core + after) == core + after by { TrimLeftTight(p); }
      TrimRightBlank(core, after);
    }
  }

  lemma {:induction false} TrimLeftTight(p: string)
    ensures TrimLeft(p) != "" ==> !IsSpace(TrimLeft(p)[0])
  {
    if p != "" && IsSpace(p[0]) { TrimLeftTight(p[1..]); }
  }

  lemma FieldsBlankTail(v: string, after: string)
    requires Blank(after)
    ensures FieldsOf(v + after) == FieldsOf(v)
  {
    BlankIsFree(after, ',');
    SplitBlankTail(v, after);
    var p := Split(v, ',');
    var n := |p| - 1;
    WordsSnoc(p[..n], p[n]);
    assert p[..n] + [p[n]] == p;
    WordsSnoc(p[..n], p[n] + after);
    TrimBlankTail(p[n], after);
  }

  /** A clause of a list key, once it is cut at the colon. */
  lemma ReadAtColon(text: string, left: string, right: string, acc: Clauses)
    requires Trim(text) == left + [':'] + right && Free(left, ':')
    ensures ReadClause(text, acc) ==
            if Trim(left) == "pk" then acc.(pk := FieldsOf(right))
            else if Trim(left) == "sk" then acc.(sk := FieldsOf(right))
            else acc
  {
    FirstSeparator(left, right, ':');
    assert Trim(text)[..|left|] == left;
    assert Trim(text)[|left| + 1..] == right;
  }

  lemma SlotsRead(slots: seq<Padded>)
    requires slots != [] && forall s <- slots :: s.Valid() && Free(s.word, ',')
    ensures FieldsOf(TrimRight(Join(SlotTexts(slots), ','))) == Named(slots)
  {
    var val := Join(SlotTexts(slots), ',');
    var a := TrimRightSplits(val);
    FieldsBlankTail(TrimRight(val), a);
    forall t <- SlotTexts(slots) ensures Free(t, ',') {
      var i :| 0 <= i < |slots| && t == slots[i].Text();
      BlankIsFree(slots[i].before, ',');
      BlankIsFree(slots[i].after, ',');
    }
    SplitOfJoin(SlotTexts(slots), ',');
    WordsOfSlots(slots);
  }

  lemma KeyTrims(key: Padded)
    requires key.Valid() && Free(key.word, ':')
    ensures Free(TrimLeft(key.Text()), ':') && Trim(TrimLeft(key.Text())) == key.word
  {
    var k := key.Text();
    var b := TrimLeftSplits(k);
    BlankIsFree(key.before, ':');
    BlankIsFree(key.after, ':');
    assert forall c <- TrimLeft(k) :: c in k;
    TrimLeftBlank(b, TrimLeft(k));
    TrimPadded(key.before, key.word, key.after);
  }

  /** One clause: surrounding white space and empty slots do not matter. */
  lemma ReadRendered(c: Rendered, acc: Clauses)
    requires c.Valid()
    ensures ReadClause(c.Text(), acc) ==
            if c.Fields? && c.key.word == "pk" then acc.(pk := Named(c.slots))
            else if c.Fields? && c.key.word == "sk" then acc.(sk := Named(c.slots))
            else acc
  {
    match c
    case Malformed(text) =>
      var b := TrimLeftSplits(text);
      var a := TrimRightSplits(TrimLeft(text));
      assert Free(Trim(text), ':');
      NoSeparator(Trim(text), ':');
    case Fields(key, slots) =>
      var k, val := key.Text(), Join(SlotTexts(slots), ',');
      TrimLeftStops(k, ':', val);
      TrimRightStops(TrimLeft(k), ':', val);
      KeyTrims(key);
      ReadAtColon(c.Text(), TrimLeft(k), TrimRight(val), acc);
      SlotsRead(slots);
  }

  lemma {:induction false} ReadAllRendered(cs: seq<Rendered>)
    requires forall c <- cs :: c.Valid()
    ensures ReadClauses(ClauseTexts(cs)) == Clauses(LastFields(cs, "pk"), LastFields(cs, "sk"))
  {
    if cs == [] {
    } else {
      var n := |cs| - 1;
      assert ClauseTexts(cs)[..n] == ClauseTexts(cs[..n]);
      ReadAllRendered(cs[..n]);
      ReadRendered(cs[n], ReadClauses(ClauseTexts(cs[..n])));
    }
  }

  lemma {:induction false} JoinFree(parts: seq<string>, sep: char, c: char)
    requires c != sep && forall p <- parts :: Free(p, c)
    ensures Free(Join(parts, sep), c)
  {
    if parts == [] {
    } else if |parts| == 1 {
      assert parts[0] in parts;
    } else {
      assert parts[0] in parts;
      JoinFree(parts[1..], sep, c);
    }
  }

  lemma RenderedFree(c: Rendered)
    requires c.Valid()
    ensures Free(c.Text(), ';')
  {
    if c.Fields? {
      BlankIsFree(c.key.before, ';');
      BlankIsFree(c.key.after, ';');
      forall t <- SlotTexts(c.slots) ensures Free(t, ';') {
        var i :| 0 <= i < |c.slots| && t == c.slots[i].Text();
        BlankIsFree(c.slots[i].before, ';');
        BlankIsFree(c.slots[i].after, ';');
      }
      JoinFree(SlotTexts(c.slots), ',', ';');
    }
  }

  lemma {:induction false} ReadColonless(clauses: seq<string>)
    requires forall c <- clauses :: Free(c, ':')
    ensures ReadClauses(clauses) == NO_CLAUSES
  {
    if clauses == [] {
    } else {
      var n := |clauses| - 1;
      ReadColonless(clauses[..n]);
      assert Malformed(Trim(clauses[n])).Text() == Trim(clauses[n]);
      var b := TrimLeftSplits(clauses[n]);
      var a := TrimRightSplits(TrimLeft(clauses[n]));
      assert clauses[n] in clauses;
      NoSeparator(Trim(clauses[n]), ':');
    }
  }

  lemma {:induction false} JoinBlankParts(parts: seq<string>, sep: char)
    requires Blank(Join(parts, sep))
    ensures forall p <- parts :: Blank(p)
  {
    if |parts| <= 1 {
    } else {
      var rest := Join(parts[1..], sep);
      assert parts[0] <= Join(parts, sep);
      assert forall c <- rest :: c in Join(parts, sep);
      JoinBlankParts(parts[1..], sep);
      assert parts == [parts[0]] + parts[1..];
    }
  }

  /** Parsing any rendering gives back the field lists: for each key the fields of the last
      clause carrying it, whatever the white space, the empty slots, the malformed or
      unknown clauses and the order of clauses. Every tag is such a rendering. */
  lemma ParseOfRender(cs: seq<Rendered>)
    requires cs != [] && forall c <- cs :: c.Valid()
    ensures ModelClauses(Some(RenderTag(cs))) == Clauses(LastFields(cs, "pk"), LastFields(cs, "sk"))
  {
    var tag := RenderTag(cs);
    ReadAllRendered(cs);
    forall t <- ClauseTexts(cs) ensures Free(t, ';') {
      var i :| 0 <= i < |cs| && t == cs[i].Text();
      RenderedFree(cs[i]);
    }
    SplitOfJoin(ClauseTexts(cs), ';');
    if Trim(tag) == "" {
      var b := TrimLeftSplits(tag);
      var a := TrimRightSplits(TrimLeft(tag));
      JoinBlankParts(ClauseTexts(cs), ';');
      ReadColonless(ClauseTexts(cs));
    }
  }

  lemma {:induction false} SplitRendered(clauses: seq<string>) returns (cs: seq<Rendered>)
    requires forall c <- clauses :: Free(c, ';')
    ensures |cs| == |clauses| && ClauseTexts(cs) == clauses
    ensures forall c <- cs :: c.Valid()
  {
    if clauses == [] {
      cs := [];
    } else {
      var c := ClauseRendered(clauses[0]);
      var rest := SplitRendered(clauses[1..]);
      cs := [c] + rest;
      assert forall i | 0 < i < |cs| :: cs[i] == rest[i - 1];
    }
  }

  lemma PadWord(s: string) returns (p: Padded)
    ensures p.Text() == s && p.Valid() && forall c | Free(s, c) :: Free(p.word, c)
  {
    var b := TrimLeftSplits(s);
    var a := TrimRightSplits(TrimLeft(s));
    p := Padded(b, Trim(s), a);
    assert p.Text() == b + (Trim(s) + a);
    TrimLeftTight(s);
    TrimRightTight(TrimLeft(s));
  }

  lemma {:induction false} TrimRightTight(p: string)
    ensures TrimRight(p) != "" ==> !IsSpace(TrimRight(p)[|TrimRight(p)| - 1]) && TrimRight(p)[0] == p[0]
  {
    if p != "" && IsSpace(p[|p| - 1]) { TrimRightTight(p[..|p| - 1]); }
  }

  lemma {:induction false} PadWords(parts: seq<string>) returns (slots: seq<Padded>)
    requires forall p <- parts :: Free(p, ',') && Free(p, ';')
    ensures SlotTexts(slots) == parts
    ensures forall s <- slots :: s.Valid() && Free(s.word, ',') && Free(s.word, ';')
  {
    if parts == [] {
      slots := [];
    } else {
      var p := PadWord(parts[0]);
      var rest := PadWords(parts[1..]);
      slots := [p] + rest;
      assert forall i | 0 < i < |slots| :: slots[i] == rest[i - 1];
    }
  }

  lemma ClauseRendered(text: string) returns (c: Rendered)
    requires Free(text, ';')
    ensures c.Text() == text && c.Valid()
  {
    var i := IndexOf(text, ':');
    if i == |text| {
      assert text[..i] == text;
      c := Malformed(text);
    } else {
      var key, val := text[..i], text[i + 1..];
      var k := PadWord(key);
      JoinOfSplit(val, ',');
      var slots := PadWords(Split(val, ','));
      c := Fields(k, slots);
      assert text == key + [':'] + val;
    }
  }

  /** The clause grammar covers every tag text. */
  lemma EveryTagIsRendered(tag: string) returns (cs: seq<Rendered>)
    ensures cs != [] && RenderTag(cs) == tag
    ensures forall c <- cs :: c.Valid()
  {
    JoinOfSplit(tag, ';');
    cs := SplitRendered(Split(tag, ';'));
  }

  // ----- The compress marker and attribute names -----

  predicate Compressed(f: StructField) {
    f.dynamoTag.Some? && Trim(f.dynamoTag.value) == "compress"
  }

  /** The name part of a dynamodbav tag; "" without a tag. */
  function AvName(f: StructField): string {
    if f.avTag.None? then "" else f.avTag.value[..IndexOf(f.avTag.value, ',')]
  }

  /** What a field's tags mean: its attribute name, whether attributevalue leaves it out
      (name "-"), whether it is compressed, and the zero of its type. */
  datatype Field = Field(name: string, attr: string, ignored: bool, compressed: bool, zero: Value)

  function FieldOf(f: StructField): Field {
    var av := AvName(f);
    Field(f.name, if av == "" || av == "-" then f.name else av, av == "-", Compressed(f), f.zero)
  }

  function Layout(t: StructType): (fs: seq<Field>) {
    seq(|t.fields|, i requires 0 <= i < |t.fields| => FieldOf(t.fields[i]))
  }

  function CompressNames(fs: seq<Field>): seq<string> {
    if fs == [] then []
    else
      var n := |fs| - 1;
      CompressNames(fs[..n]) + if fs[n].compressed then [fs[n].name] else []
  }

  /** parseCompressFields: the marked fields, in declaration order. */
  method ParseCompressFields(t: StructType) returns (names: seq<string>)
    ensures names == CompressNames(Layout(t))
  {
    names := [];
    for i := 0 to |t.fields|
      invariant names == CompressNames(Layout(t)[..i])
    {
      assert Layout(t)[..i + 1][..i] == Layout(t)[..i];
      var tag := t.fields[i].dynamoTag;
      if tag.Some? && Trim(tag.value) == "compress" {
        names := names + [t.fields[i].name];
      }
    }
    assert Layout(t)[..|t.fields|] == Layout(t);
  }

  function Find(fs: seq<Field>, name: string): Option<Field> {
    if fs == [] then None
    else if fs[0].name == name then Some(fs[0])
    else Find(fs[1..], name)
  }

  lemma {:induction false} FindIn(fs: seq<Field>, name: string)
    requires Find(fs, name).Some?
    ensures Find(fs, name).value in fs && Find(fs, name).value.name == name
  {
    if fs[0].name == name {
    } else {
      FindIn(fs[1..], name);
    }
  }

  /** The attribute name of a Go field name; a name that is no field is passed through. */
  function AttrName(fs: seq<Field>, goName: string): string {
    var f := Find(fs, goName);
    if f.None? then goName else f.value.attr
  }

  /** resolveAttrName; the promoted Model fields carry no dynamodbav tag. */
  method ResolveAttrName(t: StructType, goName: string) returns (attr: string)
    ensures attr == AttrName(Layout(t), goName)
    ensures (forall f <- t.fields :: f.name != goName) ==> attr == goName
  {
    for i := 0 to |t.fields|
      invariant Find(Layout(t), goName) == Find(Layout(t)[i..], goName)
      invariant forall j | 0 <= j < i :: t.fields[j].name != goName
    {
      assert Layout(t)[i..][1..] == Layout(t)[i + 1..];
      if t.fields[i].name == goName {
        var av := AvName(t.fields[i]);
        return if av == "" || av == "-" then goName else av;
      }
    }
    return goName;
  }

  /** Names and attribute names are pairwise distinct. */
  predicate Distinct(fs: seq<Field>) {
    forall i, j | 0 <= i < j < |fs| :: fs[i].name != fs[j].name && fs[i].attr != fs[j].attr
  }

  lemma SameField(fs: seq<Field>, f: Field, g: Field)
    requires Distinct(fs) && f in fs && g in fs && (f.name == g.name || f.attr == g.attr)
    ensures f == g
  {
    var i :| 0 <= i < |fs| && fs[i] == f;
    var j :| 0 <= j < |fs| && fs[j] == g;
    assert !(i < j) && !(j < i);
  }

  lemma {:induction false} FindDistinct(fs: seq<Field>, f: Field)
    requires Distinct(fs) && f in fs
    ensures Find(fs, f.name) == Some(f)
  {
    if fs[0].name == f.name {
      SameField(fs, fs[0], f);
    } else {
      assert f in fs[1..];
      FindDistinct(fs[1..], f);
    }
  }

  // ----- What the tags of one field mean -----

  lemma AvNameCut(name: string, rest: string)
    requires Free(name, ',')
    ensures IndexOf(name, ',') == |name| && IndexOf(name + "," + rest, ',') == |name|
    ensures (name + "," + rest)[..|name|] == name && name[..|name|] == name
  {
    NoSeparator(name, ',');
    FirstSeparator(name, rest, ',');
    assert name + "," + rest == name + [','] + rest;
  }

  /** A dynamodbav tag is a name, alone or followed by a comma and options. The name is the
      attribute's, except that an empty one leaves the Go name, as a missing tag does, and "-"
      keeps the field out of storage. */
  lemma AvTagMeans(f: StructField, name: string, rest: string)
    requires Free(name, ',') && (f.avTag == Some(name) || f.avTag == Some(name + "," + rest))
    ensures FieldOf(f).attr == if name == "" || name == "-" then f.name else name
    ensures FieldOf(f).ignored <==> name == "-"
  {
    AvNameCut(name, rest);
  }

  /** A field is compressed exactly when its dynamo tag is the word, with any white space
      around it. */
  lemma CompressTagMeans(f: StructField, tag: Padded)
    requires tag.Valid() && (f.dynamoTag.Some? ==> f.dynamoTag == Some(tag.Text()))
    ensures FieldOf(f).compressed <==> f.dynamoTag.Some? && tag.word == "compress"
  {
    TrimPadded(tag.before, tag.word, tag.after);
  }

  /** An expression names a field of the struct by the attribute it is stored under. */
  lemma AttrNameOfField(t: StructType, i: nat)
    requires Distinct(Layout(t)) && i < |t.fields|
    ensures AttrName(Layout(t), t.fields[i].name) == FieldOf(t.fields[i]).attr
    ensures t.fields[i].avTag == None ==> AttrName(Layout(t), t.fields[i].name) == t.fields[i].name
  {
    assert Layout(t)[i] == FieldOf(t.fields[i]);
    FindDistinct(Layout(t), Layout(t)[i]);
  }
}
