/** The query builder: key and filter conditions, exhaustive reads and cursor pages. */
module Query {
  import opened Text
  import opened Store
  import opened Tags
  import opened Model
  import opened Compress
  import opened Crud
  import opened Paging
  import opened Sequences
  import Cursor
  import History
  import Protocol
  import Runs

  // ----- Filters -----

  datatype FilterOp =
    | FilterEqual | FilterNotEqual | FilterGreaterThan | FilterGreaterOrEqual | FilterLessThan | FilterLessOrEqual
    | FilterBeginsWith | FilterContains | FilterExists | FilterNotExists

  /** A queued filter; the two existence operators ignore the value. */
  datatype FilterCondition = FilterCondition(op: FilterOp, field: string, value: Value)

  /** buildCondition. */
  function BuildCondition(f: FilterCondition): Cond {
    match f.op
    case FilterEqual => Compare(f.field, Eq, f.value)
    case FilterNotEqual => Compare(f.field, Ne, f.value)
    case FilterGreaterThan => Compare(f.field, Gt, f.value)
    case FilterGreaterOrEqual => Compare(f.field, Ge, f.value)
    case FilterLessThan => Compare(f.field, Lt, f.value)
    case FilterLessOrEqual => Compare(f.field, Le, f.value)
    case FilterBeginsWith => BeginsWith(f.field, if f.value.S? then f.value.s else "")
    case FilterContains => Contains(f.field, f.value)
    case FilterExists => Exists(f.field)
    case FilterNotExists => NotExists(f.field)
  }

  /** What each operator asks of the attribute. Values of different kinds are never ordered,
      a missing attribute fails everything but "not equal" and "not exists". */
  predicate FilterHolds(f: FilterCondition, av: Attrs) {
    var there := f.field in av;
    var got := if there then av[f.field] else f.value;
    match f.op
    case FilterEqual => there && got == f.value
    case FilterNotEqual => !there || got != f.value
    case FilterGreaterThan => there && LessValue(f.value, got)
    case FilterGreaterOrEqual => there && (LessValue(f.value, got) || got == f.value)
    case FilterLessThan => there && LessValue(got, f.value)
    case FilterLessOrEqual => there && (LessValue(got, f.value) || got == f.value)
    case FilterBeginsWith => there && got.S? && (f.value.S? ==> f.value.s <= got.s)
    case FilterContains => there && (got.S? || got.B?) && SameKind(got, f.value) &&
                           (if got.S? then Infix(f.value.s, got.s) else Infix(f.value.b, got.b))
    case FilterExists => there
    case FilterNotExists => !there
  }

  lemma FilterMeaning(f: FilterCondition, av: Attrs)
    ensures Holds(BuildCondition(f), av) <==> FilterHolds(f, av)
  {}

  function Conjunction(filters: seq<FilterCondition>): Cond
    requires filters != []
  {
    var n := |filters| - 1;
    if n == 0 then BuildCondition(filters[0]) else And(Conjunction(filters[..n]), BuildCondition(filters[n]))
  }

  /** filterExpression. */
  method FilterExpression(filters: seq<FilterCondition>) returns (cond: Cond)
    requires filters != []
    ensures cond == Conjunction(filters)
  {
    cond := BuildCondition(filters[0]);
    for i := 1 to |filters|
      invariant cond == Conjunction(filters[..i])
    {
      cond := And(cond, BuildCondition(filters[i]));
      assert filters[..i + 1][..i] == filters[..i];
    }
    assert filters[..|filters|] == filters;
  }

  predicate AllHold(filters: seq<FilterCondition>, av: Attrs) {
    forall f <- filters :: Holds(BuildCondition(f), av)
  }

  lemma AllHoldSnoc(front: seq<FilterCondition>, f: FilterCondition, av: Attrs)
    ensures AllHold(front + [f], av) <==> AllHold(front, av) && Holds(BuildCondition(f), av)
  {
    assert f in front + [f];
  }

  lemma ConjunctionSnoc(front: seq<FilterCondition>, f: FilterCondition)
    ensures Conjunction(front + [f])
            == if front == [] then BuildCondition(f) else And(Conjunction(front), BuildCondition(f))
  {
    assert (front + [f])[..|front|] == front;
  }

  /** The filter expression holds exactly when every queued filter does. */
  lemma {:induction false} ConjunctionHolds(filters: seq<FilterCondition>, av: Attrs)
    requires filters != []
    ensures Holds(Conjunction(filters), av) <==> AllHold(filters, av)
  {
    var n := |filters| - 1;
    var front := filters[..n];
    assert filters == front + [filters[n]];
    AllHoldSnoc(front, filters[n], av);
    ConjunctionSnoc(front, filters[n]);
    if n > 0 { ConjunctionHolds(front, av); }
  }

  // ----- The request -----

  datatype SkCondition = SkNone | SkEquals(lo: string) | SkBeginsWith(lo: string) | SkBetween(lo: string, hi: string)

  datatype Input =
    Input(index: Option<string>, keyAttr: string, keyValue: string, sk: SkCondition, filter: Option<Cond>,
          limit: Option<int>)

  predicate SkHolds(sk: SkCondition, text: string) {
    match sk
    case SkNone => true
    case SkEquals(lo) => text == lo
    case SkBeginsWith(lo) => lo <= text
    case SkBetween(lo, hi) => (lo == text || Less(lo, text)) && (text == hi || Less(text, hi))
  }

  /** The key condition of a record, in the base table or in the index. */
  predicate KeyHolds(input: Input, av: Attrs) {
    && input.keyAttr in av && av[input.keyAttr] == S(input.keyValue)
    && "SK" in av && av["SK"].S? && SkHolds(input.sk, av["SK"].s)
  }

  function Among(input: Input): (Key, Attrs) -> bool {
    (k, av) => KeyHolds(input, av)
  }

  /** The request behind a query or a scan, for an order in which the service returns keys. */
  function RequestOf(codec: Codec, ty: StructType, filter: Option<Cond>, limit: Option<int>,
                     order: (Key, Key) -> bool): Paging.Request<Key> {
    Paging.Request(order, limit, av => filter.None? || Holds(filter.value, av),
                   av => Unmarshalled(codec, av, ZeroEntity(ty, NIL_ID)).ok)
  }

  /** The request behind a query. */
  function QueryRequest(codec: Codec, ty: StructType, input: Input, order: (Key, Key) -> bool): Paging.Request<Key> {
    RequestOf(codec, ty, input.filter, input.limit, order)
  }

  /** The rows' values, in order. */
  function EntitiesOf(codec: Codec, ty: StructType, rows: seq<Row<Key>>): (items: seq<Entity>)
    ensures |items| == |rows|
    ensures forall i | 0 <= i < |rows| :: items[i] == Unmarshalled(codec, rows[i].av, ZeroEntity(ty, NIL_ID)).e
  {
    seq(|rows|, i requires 0 <= i < |rows| => Unmarshalled(codec, rows[i].av, ZeroEntity(ty, NIL_ID)).e)
  }

  /** The attributes of a last evaluated key: the table's own key, and in an index also the
      index's partition key. */
  function KeyMap(input: Input, k: Key): map<string, string> {
    var own := map["PK" := k.pk, "SK" := k.sk];
    if input.index.Some? then own[input.keyAttr := input.keyValue] else own
  }

  /** The position a start key names; the service rejects any other. */
  function StartOf(input: Input, m: map<string, string>): Option<Key> {
    if "PK" in m && "SK" in m && m == KeyMap(input, Key(m["PK"], m["SK"])) then Some(Key(m["PK"], m["SK"])) else None
  }

  // ----- Page -----

  datatype PageResult = PageResult(rows: seq<Row<Key>>, next: string)

  /** The start key a cursor stands for; None is an error. */
  function CursorStart(input: Input, cursor: string): Option<Option<Key>> {
    if cursor == "" then Some(None)
    else
      var m := Cursor.DecodeCursor(cursor);
      if m.None? || StartOf(input, m.value).None? then None else Some(StartOf(input, m.value))
  }

  function NextCursor(input: Input, last: Option<Key>): string {
    if last.None? then "" else Cursor.EncodeCursor(KeyMap(input, last.value))
  }

  function PageAt(q: Paging.Request<Key>, input: Input, m: Moment<Key>, cursor: string): Option<PageResult> {
    var start := CursorStart(input, cursor);
    if start.None? then None
    else
      var page := FetchPage(q, m, start.value);
      if page.None? then None else Some(PageResult(page.value.rows, NextCursor(input, page.value.last)))
  }

  /** Calling Page from a cursor until the next cursor is empty. */
  function Iterate(q: Paging.Request<Key>, input: Input, script: seq<Moment<Key>>, cursor: string): Listing<Key> {
    if script == [] then Listing(None, [])
    else
      var page := PageAt(q, input, script[0], cursor);
      if page.None? then Listing(None, script[1..])
      else if page.value.next == "" then Listing(Some(page.value.rows), script[1..])
      else Ahead(page.value.rows, Iterate(q, input, script[1..], page.value.next))
  }

  predicate ProperInput(input: Input) {
    input.index.Some? ==> input.keyAttr != "PK" && input.keyAttr != "SK"
  }

  lemma StartBack(input: Input, k: Key)
    requires ProperInput(input)
    ensures StartOf(input, KeyMap(input, k)) == Some(k)
  {}

  lemma StartVia(input: Input, m: map<string, string>, cursor: string, k: Key)
    requires cursor != "" && Cursor.DecodeCursor(cursor) == Some(m) && StartOf(input, m) == Some(k)
    ensures CursorStart(input, cursor) == Some(Some(k))
  {}

  /** A cursor leads back to the position it was made from. */
  lemma CursorBack(input: Input, last: Key)
    requires ProperInput(input)
    ensures CursorStart(input, NextCursor(input, Some(last))) == Some(Some(last))
    ensures NextCursor(input, Some(last)) != ""
  {
    var m := KeyMap(input, last);
    Cursor.CursorRoundTrip(m);
    StartBack(input, last);
    StartVia(input, m, Cursor.EncodeCursor(m), last);
  }

  lemma {:induction false} IterateFrom(q: Paging.Request<Key>, input: Input, script: seq<Moment<Key>>,
                        start: Option<Key>)
    requires ProperInput(input)
    ensures Iterate(q, input, script, NextCursor(input, start)) == ListFrom(q, script, start)
    decreases |script|
  {
    if start.Some? { CursorBack(input, start.value); }
    if script == [] {
    } else {
      var page := FetchPage(q, script[0], start);
      if page.Some? && page.value.last.Some? {
        CursorBack(input, page.value.last.value);
        IterateFrom(q, input, script[1..], page.value.last);
      }
    }
  }

  // ----- The builder -----

  /** What the calls on a builder have set. */
  datatype Settings =
    Settings(pk: Option<string>, sk: SkCondition, filters: seq<FilterCondition>, index: string, limit: Option<int>)

  /** The input of a builder's settings; None when the expression library refuses an empty
      attribute name. */
  function InputOf(cfg: Config, ty: StructType, b: Settings): (input: Option<Input>)
    ensures input.Some? && ValidConfig(cfg) ==> ProperInput(input.value)
  {
    var keyAttr := if b.pk.Some? then "PK" else cfg.gsi1PKAttr;
    if keyAttr == "" || exists f <- b.filters :: f.field == "" then None
    else
      var filter := if b.filters == [] then None else Some(Conjunction(b.filters));
      Some(if b.pk.Some? then Input(None, keyAttr, b.pk.value, b.sk, filter, b.limit)
           else Input(Some(if b.index != "" then b.index else cfg.gsi1Name), keyAttr, ty.name, b.sk, filter, b.limit))
  }

  /** The rows of All for the builder's settings, given what the table will be and how the
      service pages. */
  function AllRows(cfg: Config, ty: StructType, b: Settings, order: (Key, Key) -> bool, script: seq<Moment<Key>>)
    : Option<seq<Row<Key>>>
  {
    var input := InputOf(cfg, ty, b);
    if input.None? then None
    else ListFrom(QueryRequest(cfg.codec, ty, input.value, order), NarrowAll(Among(input.value), script), None).rows
  }

  method Unmarshal(cfg: Config, ty: StructType, rows: seq<Row<Key>>) returns (items: seq<Entity>)
    ensures items == EntitiesOf(cfg.codec, ty, rows)
  {
    items := [];
    for i := 0 to |rows|
      invariant items == EntitiesOf(cfg.codec, ty, rows[..i])
    {
      var item := new Item(ZeroEntity(ty, NIL_ID));
      var ok := UnmarshalItemInto(cfg.codec, rows[i].av, item);
      items := items + [item.View()];
      assert rows[..i + 1][..i] == rows[..i];
    }
    assert rows[..|rows|] == rows;
  }

  class QueryBuilder {
    const t: StructType
    var pk: Option<string>
    var sk: SkCondition
    var filters: seq<FilterCondition>
    var index: string
    var limit: Option<int>

    constructor (t: StructType)
      ensures this.t == t && pk == None && sk == SkNone && filters == [] && index == "" && limit == None
    {
      this.t, pk, sk, filters, index, limit := t, None, SkNone, [], "", None;
    }

    method WherePK(pk: string)
      modifies this`pk
      ensures this.pk == Some(pk)
    {
      this.pk := Some(pk);
    }

    /** SKEquals, SKBeginsWith and SKBetween: the last call wins. */
    method WhereSK(c: SkCondition)
      modifies this`sk
      ensures sk == c
    {
      sk := c;
    }

    /** addFilter resolves the Go field name. */
    method AddFilter(op: FilterOp, field: string, value: Value)
      modifies this`filters
      ensures filters == old(filters) + [FilterCondition(op, AttrName(Layout(t), field), value)]
    {
      var attr := ResolveAttrName(t, field);
      filters := filters + [FilterCondition(op, attr, value)];
    }

    method Index(name: string)
      modifies this`index
      ensures index == name
    {
      index := name;
    }

    method Limit(n: int)
      modifies this`limit
      ensures limit == Some(n)
    {
      limit := Some(n);
    }

    /** The settings so far. */
    function Chosen(): Settings
      reads this
    {
      Settings(pk, sk, filters, index, limit)
    }

    function Built(cfg: Config): Option<Input>
      reads this
    {
      InputOf(cfg, t, Chosen())
    }

    method BuildInput(cfg: Config) returns (input: Option<Input>)
      ensures input == Built(cfg)
    {
      var keyAttr, keyValue, indexName := cfg.gsi1PKAttr, t.name, None;
      if pk.Some? {
        keyAttr, keyValue := "PK", pk.value;
      } else {
        indexName := Some(if index != "" then index else cfg.gsi1Name);
      }
      if keyAttr == "" { return None; }
      for i := 0 to |filters|
        invariant forall j | 0 <= j < i :: filters[j].field != ""
      {
        if filters[i].field == "" { return None; }
      }
      var filter := None;
      if filters != [] {
        var cond := FilterExpression(filters);
        filter := Some(cond);
      }
      input := Some(Input(indexName, keyAttr, keyValue, sk, filter, limit));
    }

    /** All. */
    method All(cfg: Config, wire: PageWire<Key>, order: (Key, Key) -> bool) returns (items: Option<seq<Entity>>)
      requires wire as object != this as object
      modifies wire
      ensures Built(cfg).None? ==> wire.script == old(wire.script)
      ensures var rows := AllRows(cfg, t, Chosen(), order, old(wire.script));
              items == if rows.None? then None else Some(EntitiesOf(cfg.codec, t, rows.value))
    {
      var input := BuildInput(cfg);
      if input.None? { return None; }
      var rows := wire.ListAll(QueryRequest(cfg.codec, t, input.value, order), Among(input.value));
      if rows.None? { return None; }
      var read := Unmarshal(cfg, t, rows.value);
      items := Some(read);
    }

    /** Page: one call, from a cursor or from the start. */
    method Page(cfg: Config, wire: PageWire<Key>, order: (Key, Key) -> bool, cursor: string)
      returns (ok: bool, items: seq<Entity>, next: string)
      requires wire as object != this as object
      modifies wire
      ensures Built(cfg).None? || CursorStart(Built(cfg).value, cursor).None? ==>
                !ok && wire.script == old(wire.script)
      ensures Built(cfg).Some? && CursorStart(Built(cfg).value, cursor).Some? ==>
                var input := Built(cfg).value;
                if old(wire.script) == [] then !ok
                else
                  var m := Narrow(Among(input), old(wire.script)[0]);
                  var page := PageAt(QueryRequest(cfg.codec, t, input, order), input, m, cursor);
                  if page.None? then !ok
                  else ok && items == EntitiesOf(cfg.codec, t, page.value.rows) && next == page.value.next
      ensures !ok ==> items == [] && next == ""
    {
      ok, items, next := false, [], "";
      var input := BuildInput(cfg);
      if input.None? { return; }
      var start: Option<Key> := None;
      if cursor != "" {
        var key := Cursor.DecodeCursor(cursor);
        if key.None? || StartOf(input.value, key.value).None? { return; }
        start := StartOf(input.value, key.value);
      }
      var page := wire.Call(QueryRequest(cfg.codec, t, input.value, order), Among(input.value), start);
      if page.None? { return; }
      items := Unmarshal(cfg, t, page.value.rows);
      ok := true;
      if page.value.last.Some? { next := Cursor.EncodeCursor(KeyMap(input.value, page.value.last.value)); }
    }
  }

  // ----- What a query returns -----

  /** The sort-key condition of a query. */
  predicate SkAsked(sk: SkCondition, text: string) {
    match sk
    case SkNone => true
    case SkEquals(lo) => text == lo
    case SkBeginsWith(lo) => |lo| <= |text| && text[..|lo|] == lo
    case SkBetween(lo, hi) => !Less(text, lo) && !Less(hi, text)
  }

  lemma SkMeaning(sk: SkCondition, text: string)
    ensures SkHolds(sk, text) <==> SkAsked(sk, text)
  {
    if sk.SkBetween? {
      LessOrEqual(sk.lo, text);
      LessOrEqual(text, sk.hi);
    }
  }

  lemma LessOrEqual(a: string, b: string)
    ensures a == b || Less(a, b) <==> !Less(b, a)
  {
    LessTotal(a, b);
    LessIrreflexive(a);
    if Less(a, b) && Less(b, a) { LessTransitive(a, b, a); }
  }

  /** What the caller of a builder asked for: the partition that was set, or else the type's own
      records in the index; the sort-key condition that was set last; every queued filter. */
  predicate Asked(cfg: Config, ty: StructType, b: Settings, av: Attrs) {
    && (if b.pk.Some? then AttrIs(av, "PK", S(b.pk.value)) else AttrIs(av, cfg.gsi1PKAttr, S(ty.name)))
    && "SK" in av && av["SK"].S? && SkAsked(b.sk, av["SK"].s)
    && forall f <- b.filters :: FilterHolds(f, av)
  }

  /** A query is not built exactly when it would name an empty attribute. Its conditions hold
      exactly of what was asked for, it goes to the table for a partition and to the index
      otherwise, to the default one if none was set, and it carries the limit. */
  lemma BuiltMeans(cfg: Config, ty: StructType, b: Settings)
    ensures InputOf(cfg, ty, b).None?
            <==> (b.pk.None? && cfg.gsi1PKAttr == "") || exists f <- b.filters :: f.field == ""
    ensures InputOf(cfg, ty, b).Some? ==>
              var input := InputOf(cfg, ty, b).value;
              && (forall av :: KeyHolds(input, av) && (input.filter.Some? ==> Holds(input.filter.value, av))
                               <==> Asked(cfg, ty, b, av))
              && (input.index.None? <==> b.pk.Some?)
              && (b.pk.None? ==> input.index == Some(if b.index == "" then cfg.gsi1Name else b.index))
              && input.limit == b.limit
  {
    if InputOf(cfg, ty, b).Some? {
      var input := InputOf(cfg, ty, b).value;
      forall av: Attrs
        ensures KeyHolds(input, av) && (input.filter.Some? ==> Holds(input.filter.value, av)) <==> Asked(cfg, ty, b, av)
      {
        if "SK" in av && av["SK"].S? { SkMeaning(b.sk, av["SK"].s); }
        FiltersMean(b.filters, av);
      }
    }
  }

  lemma FiltersMean(filters: seq<FilterCondition>, av: Attrs)
    ensures filters != [] ==> (Holds(Conjunction(filters), av) <==> forall f <- filters :: FilterHolds(f, av))
  {
    if filters != [] { ConjunctionHolds(filters, av); }
    forall f <- filters { FilterMeaning(f, av); }
  }

  lemma WantsAsked(cfg: Config, ty: StructType, b: Settings, order: (Key, Key) -> bool)
    requires InputOf(cfg, ty, b).Some?
    ensures var input := InputOf(cfg, ty, b).value;
            var q := QueryRequest(cfg.codec, ty, input, order);
            forall k, av :: Wanted(q, Among(input), k, av) <==> Asked(cfg, ty, b, av)
  {
    BuiltMeans(cfg, ty, b);
  }

  /** Whatever is written between the pages of All, its keys come back in strictly increasing
      order, every row is a record that matched when it was read, and every record that is
      there and matches throughout comes back exactly once. */
  lemma QueryUnderInterference(cfg: Config, ty: StructType, b: Settings, order: (Key, Key) -> bool,
                               script: seq<Moment<Key>>)
    requires StrictOrder(order) && AllRows(cfg, ty, b, order, script).Some?
    ensures var rows := AllRows(cfg, ty, b, order, script).value;
            && Increasing(order, Positions(rows))
            && (forall r <- rows :: Asked(cfg, ty, b, r.av) && WasThere(script, r))
            && (forall k | forall m <- script :: k in m.view && Asked(cfg, ty, b, m.view[k]) ::
                  multiset(Positions(rows))[k] == 1)
  {
    var input := InputOf(cfg, ty, b).value;
    var q := QueryRequest(cfg.codec, ty, input, order);
    RangeListing(q, Among(input), script);
    WantsAsked(cfg, ty, b, order);
    forall k | forall m <- script :: k in m.view && Asked(cfg, ty, b, m.view[k])
      ensures WantedThroughout(q, Among(input), script, k)
    {
    }
  }

  /** On a still table All returns exactly the records that were asked for, in order, for every
      page size and every split into pages. */
  lemma QueryStill(cfg: Config, ty: StructType, b: Settings, order: (Key, Key) -> bool, script: seq<Moment<Key>>,
                   table: Table)
    requires StrictOrder(order) && Still(script, table) && AllRows(cfg, ty, b, order, script).Some?
    ensures var rows := AllRows(cfg, ty, b, order, script).value;
            && Increasing(order, Positions(rows))
            && forall r :: r in rows <==> r.pos in table && r.av == table[r.pos] && Asked(cfg, ty, b, r.av)
  {
    var input := InputOf(cfg, ty, b).value;
    RangeStill(QueryRequest(cfg.codec, ty, input, order), Among(input), script, table);
    WantsAsked(cfg, ty, b, order);
  }

  lemma {:induction false} RowsAtMost(keep: Attrs -> bool, view: map<Key, Attrs>, evaluated: seq<Key>)
    ensures |Rows(keep, view, evaluated)| <= |evaluated|
  {
    if evaluated == [] {
    } else {
      RowsAtMost(keep, view, evaluated[..|evaluated| - 1]);
    }
  }

  /** A page is one call with the limit that was set, so it holds at most so many records. */
  lemma PageWithinLimit(cfg: Config, ty: StructType, b: Settings, order: (Key, Key) -> bool, m: Moment<Key>,
                        cursor: string)
    requires InputOf(cfg, ty, b).Some? && b.limit.Some?
    requires var input := InputOf(cfg, ty, b).value;
             PageAt(QueryRequest(cfg.codec, ty, input, order), input, m, cursor).Some?
    ensures var input := InputOf(cfg, ty, b).value;
            |PageAt(QueryRequest(cfg.codec, ty, input, order), input, m, cursor).value.rows| <= b.limit.value
  {
    var q := QueryRequest(cfg.codec, ty, InputOf(cfg, ty, b).value, order);
    assert q.limit == b.limit;
    RowsAtMost(q.keep, m.view, m.reply.evaluated);
  }

  /** The rows of the pages from the empty cursor on. */
  function PageRows(cfg: Config, ty: StructType, b: Settings, order: (Key, Key) -> bool, script: seq<Moment<Key>>)
    : Listing<Key>
    requires InputOf(cfg, ty, b).Some?
  {
    var input := InputOf(cfg, ty, b).value;
    Iterate(QueryRequest(cfg.codec, ty, input, order), input, NarrowAll(Among(input), script), "")
  }

  /** Iterating Page from the empty cursor until the next cursor is empty reads exactly what
      All reads. */
  lemma PagesAreAll(cfg: Config, ty: StructType, b: Settings, order: (Key, Key) -> bool, script: seq<Moment<Key>>)
    requires ValidConfig(cfg) && InputOf(cfg, ty, b).Some?
    ensures PageRows(cfg, ty, b, order, script).rows == AllRows(cfg, ty, b, order, script)
  {
    var input := InputOf(cfg, ty, b).value;
    IterateFrom(QueryRequest(cfg.codec, ty, input, order), input, NarrowAll(Among(input), script), None);
  }

  lemma StillNarrow(among: (Key, Attrs) -> bool, script: seq<Moment<Key>>, table: Table)
    requires Still(script, table)
    ensures Still(NarrowAll(among, script), InRange(among, table))
    ensures |InRange(among, table)| <= |table|
  {
    forall m <- NarrowAll(among, script) ensures m.view == InRange(among, table) {
      var from := NarrowAt(among, script, m);
    }
    assert InRange(among, table).Keys <= table.Keys;
    SubsetSize(InRange(among, table).Keys, table.Keys);
  }

  lemma SameRows(order: (Key, Key) -> bool, a: seq<Row<Key>>, b: seq<Row<Key>>)
    requires StrictOrder(order) && Increasing(order, Positions(a)) && Increasing(order, Positions(b))
    requires forall r :: r in a <==> r in b
    ensures a == b
  {
    EnumerationUnique(order, a, b);
  }

  lemma PagesEnd(cfg: Config, ty: StructType, b: Settings, order: (Key, Key) -> bool, script: seq<Moment<Key>>,
                 table: Table)
    requires ValidConfig(cfg) && StrictOrder(order) && InputOf(cfg, ty, b).Some? && Still(script, table)
    ensures |script| - |PageRows(cfg, ty, b, order, script).rest| <= |table| + 1
  {
    var input := InputOf(cfg, ty, b).value;
    var q, narrow := QueryRequest(cfg.codec, ty, input, order), NarrowAll(Among(input), script);
    IterateFrom(q, input, narrow, None);
    StillNarrow(Among(input), script, table);
    CallsBound(q, narrow, InRange(Among(input), table), None);
    assert Remaining(order, InRange(Among(input), table), None) == InRange(Among(input), table).Keys;
  }

  lemma AllSame(cfg: Config, ty: StructType, b: Settings, limit: Option<int>, order: (Key, Key) -> bool,
                script: seq<Moment<Key>>, script': seq<Moment<Key>>, table: Table)
    requires StrictOrder(order) && Still(script, table) && Still(script', table)
    requires AllRows(cfg, ty, b, order, script).Some? && AllRows(cfg, ty, b.(limit := limit), order, script').Some?
    ensures AllRows(cfg, ty, b, order, script) == AllRows(cfg, ty, b.(limit := limit), order, script')
  {
    QueryStill(cfg, ty, b, order, script, table);
    QueryStill(cfg, ty, b.(limit := limit), order, script', table);
    forall av: Attrs ensures Asked(cfg, ty, b, av) <==> Asked(cfg, ty, b.(limit := limit), av) {}
    var rows := AllRows(cfg, ty, b, order, script).value;
    var rows' := AllRows(cfg, ty, b.(limit := limit), order, script').value;
    SameRows(order, rows, rows');
  }

  /** On a still table neither the page size nor the splits matter either, and the pages run
      out after at most one call more than there are records. */
  lemma PagesOnStillTable(cfg: Config, ty: StructType, b: Settings, limit: Option<int>, order: (Key, Key) -> bool,
                          script: seq<Moment<Key>>, script': seq<Moment<Key>>, table: Table)
    requires ValidConfig(cfg) && StrictOrder(order) && InputOf(cfg, ty, b).Some?
    requires Still(script, table) && Still(script', table)
    requires PageRows(cfg, ty, b, order, script).rows.Some?
    requires AllRows(cfg, ty, b.(limit := limit), order, script').Some?
    ensures PageRows(cfg, ty, b, order, script).rows == AllRows(cfg, ty, b.(limit := limit), order, script')
    ensures |script| - |PageRows(cfg, ty, b, order, script).rest| <= |table| + 1
  {
    PagesAreAll(cfg, ty, b, order, script);
    AllSame(cfg, ty, b, limit, order, script, script', table);
    PagesEnd(cfg, ty, b, order, script, table);
  }

  /** A type-index query without other conditions sees a record of a reachable table exactly
      when the last full put of its key was the create, and was of that struct name. */
  lemma TypeQuerySees(cfg: Config, actions: seq<Protocol.Action>, ty: StructType, k: Key, input: Input)
    requires cfg.gsi1PKAttr != "PK" && cfg.gsi1PKAttr != "SK"
    requires Some(input) == InputOf(cfg, ty, Settings(None, SkNone, [], "", input.limit))
    requires forall c <- Protocol.Run(cfg, actions).log :: c.key == k ==> !History.Names(c.entry.w, cfg.gsi1PKAttr)
    ensures var s := Protocol.Run(cfg, actions);
            (k in s.table && KeyHolds(input, s.table[k])) <==> History.IndexEntry(s.log, k) == Some(ty.name)
  {
    Runs.TypeIndexInRuns(cfg, actions, k);
    Protocol.RunOk(cfg, actions);
    var s := Protocol.Run(cfg, actions);
    History.SelfKeyedTable(s.table, s.log);
    if k in s.table { assert KeyOf(s.table[k]) == Some(k); }
  }
}
