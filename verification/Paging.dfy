/** Reading an ordered collection page by page while it may change between pages. */
module Paging {
  import opened Text
  import opened Store

  // ----- The environment -----

  /** A strict total order of positions. */
  ghost predicate StrictOrder<P(!new)>(lt: (P, P) -> bool) {
    && (forall a :: !lt(a, a))
    && (forall a, b, c :: lt(a, b) && lt(b, c) ==> lt(a, c))
    && (forall a, b :: a == b || lt(a, b) || lt(b, a))
  }

  predicate Increasing<P>(lt: (P, P) -> bool, s: seq<P>) {
    forall i, j | 0 <= i < j < |s| :: lt(s[i], s[j])
  }

  predicate After<P>(lt: (P, P) -> bool, start: Option<P>, p: P) {
    start.None? || lt(start.value, p)
  }

  /** What a request fixes for all of its pages: the order, the page size, the filter, and
      which records can be unmarshalled. */
  datatype Request<!P> = Request(lt: (P, P) -> bool, limit: Option<int>, keep: Attrs -> bool, good: Attrs -> bool)

  /** The positions a call evaluated, and the last evaluated key it returns if it stops early. */
  datatype PageReply<P> = Page(evaluated: seq<P>, last: Option<P>) | PageError

  /** The collection as it stands when a call is made, and the service's reply. */
  datatype Moment<P> = Moment(view: map<P, Attrs>, reply: PageReply<P>)

  /** A page is the next run of positions after the start key: in order, without gaps, to
      the last evaluated key or to the end. */
  predicate LegalPage<P(==)>(q: Request<P>, view: map<P, Attrs>, start: Option<P>, evaluated: seq<P>, last: Option<P>) {
    && Increasing(q.lt, evaluated)
    && (forall p <- evaluated :: p in view && After(q.lt, start, p))
    && (q.limit.Some? ==> 1 <= q.limit.value && |evaluated| <= q.limit.value)
    && (last.Some? ==> evaluated != [] && last.value == evaluated[|evaluated| - 1])
    && (forall p <- view | After(q.lt, start, p) :: p in evaluated || (last.Some? && q.lt(last.value, p)))
  }

  // ----- The loop -----

  datatype Row<P> = Row(pos: P, av: Attrs)

  /** The evaluated records that pass the filter. */
  function Rows<P(==)>(keep: Attrs -> bool, view: map<P, Attrs>, evaluated: seq<P>): seq<Row<P>> {
    if evaluated == [] then []
    else
      var n := |evaluated| - 1;
      var p := evaluated[n];
      Rows(keep, view, evaluated[..n]) + if p in view && keep(view[p]) then [Row(p, view[p])] else []
  }

  datatype Fetched<P> = Fetched(rows: seq<Row<P>>, last: Option<P>)

  /** One call; None when it fails, or a row cannot be unmarshalled. A reply that is not a
      legal page counts as a failed call. */
  function FetchPage<P(==)>(q: Request<P>, m: Moment<P>, start: Option<P>): Option<Fetched<P>> {
    if m.reply.PageError? || !LegalPage(q, m.view, start, m.reply.evaluated, m.reply.last) then None
    else
      var rows := Rows(q.keep, m.view, m.reply.evaluated);
      if forall r <- rows :: q.good(r.av) then Some(Fetched(rows, m.reply.last)) else None
  }

  datatype Listing<P> = Listing(rows: Option<seq<Row<P>>>, rest: seq<Moment<P>>)

  /** All: follow the last evaluated key until there is none. */
  function ListFrom<P(==)>(q: Request<P>, script: seq<Moment<P>>, start: Option<P>): Listing<P> {
    if script == [] then Listing(None, [])
    else
      var page := FetchPage(q, script[0], start);
      if page.None? then Listing(None, script[1..])
      else if page.value.last.None? then Listing(Some(page.value.rows), script[1..])
      else
        var more := ListFrom(q, script[1..], page.value.last);
        Listing(if more.rows.None? then None else Some(page.value.rows + more.rows.value), more.rest)
  }

  // ----- What a page holds -----

  function Positions<P>(rows: seq<Row<P>>): seq<P> {
    seq(|rows|, i requires 0 <= i < |rows| => rows[i].pos)
  }

  /** The rows of a run of positions: those that pass the filter, in the same order. */
  ghost predicate RowsOf<P>(lt: (P, P) -> bool, keep: Attrs -> bool, view: map<P, Attrs>, evaluated: seq<P>,
                        rows: seq<Row<P>>) {
    && (forall p <- evaluated :: p in view)
    && (forall r <- rows :: r.pos in evaluated && r.av == view[r.pos] && keep(r.av))
    && (forall p <- evaluated | keep(view[p]) :: Row(p, view[p]) in rows)
    && Increasing(lt, Positions(rows))
  }

  lemma IncreasingSnoc<P>(lt: (P, P) -> bool, rows: seq<Row<P>>, r: Row<P>)
    requires Increasing(lt, Positions(rows)) && forall x <- rows :: lt(x.pos, r.pos)
    ensures Increasing(lt, Positions(rows + [r]))
  {
    var s := Positions(rows + [r]);
    forall i, j | 0 <= i < j < |s| ensures lt(s[i], s[j]) {
      if j < |rows| {
        assert lt(Positions(rows)[i], Positions(rows)[j]);
      } else {
        assert rows[i] in rows;
      }
    }
  }

  lemma RowsSnoc<P>(lt: (P, P) -> bool, keep: Attrs -> bool, view: map<P, Attrs>, evaluated: seq<P>, p: P,
                    rows: seq<Row<P>>)
    requires RowsOf(lt, keep, view, evaluated, rows) && p in view && forall x <- evaluated :: lt(x, p)
    ensures RowsOf(lt, keep, view, evaluated + [p], rows + if keep(view[p]) then [Row(p, view[p])] else [])
  {
    if keep(view[p]) { IncreasingSnoc(lt, rows, Row(p, view[p])); }
    assert rows + [] == rows;
  }

  lemma {:induction false} RowsAre<P>(lt: (P, P) -> bool, keep: Attrs -> bool, view: map<P, Attrs>, evaluated: seq<P>)
    requires forall p <- evaluated :: p in view
    requires Increasing(lt, evaluated)
    ensures RowsOf(lt, keep, view, evaluated, Rows(keep, view, evaluated))
  {
    if evaluated == [] {
    } else {
      var n := |evaluated| - 1;
      var front, p := evaluated[..n], evaluated[n];
      assert evaluated == front + [p] && p in evaluated;
      RowsAre(lt, keep, view, front);
      forall x <- front ensures lt(x, p) {
        var i :| 0 <= i < n && evaluated[i] == x;
      }
      RowsSnoc(lt, keep, view, front, p, Rows(keep, view, front));
    }
  }

  /** The rows of a legal page: in order, after the start key and not beyond the last. */
  predicate PageShape<P(==)>(q: Request<P>, m: Moment<P>, start: Option<P>, page: Fetched<P>) {
    && Increasing(q.lt, Positions(page.rows))
    && (forall r <- page.rows :: r.pos in m.view && r.av == m.view[r.pos] && q.keep(r.av) && After(q.lt, start, r.pos)
                                 && (page.last.Some? ==> r.pos == page.last.value || q.lt(r.pos, page.last.value)))
    && (forall p <- m.view | q.keep(m.view[p]) && After(q.lt, start, p) ::
          Row(p, m.view[p]) in page.rows || (page.last.Some? && q.lt(page.last.value, p)))
    && (page.last.Some? ==> page.last.value in m.view && After(q.lt, start, page.last.value))
  }

  lemma PageIs<P>(q: Request<P>, m: Moment<P>, start: Option<P>)
    requires FetchPage(q, m, start).Some?
    ensures PageShape(q, m, start, FetchPage(q, m, start).value)
  {
    var evaluated := m.reply.evaluated;
    RowsAre(q.lt, q.keep, m.view, evaluated);
    if m.reply.last.Some? {
      assert evaluated[|evaluated| - 1] in evaluated;
      forall p <- evaluated ensures p == m.reply.last.value || q.lt(p, m.reply.last.value) {
        var i :| 0 <= i < |evaluated| && evaluated[i] == p;
      }
    }
  }

  // ----- What a listing holds -----

  lemma JoinIncreasing<P(!new)>(lt: (P, P) -> bool, a: seq<Row<P>>, mid: P, b: seq<Row<P>>)
    requires StrictOrder(lt) && Increasing(lt, Positions(a)) && Increasing(lt, Positions(b))
    requires forall r <- a :: r.pos == mid || lt(r.pos, mid)
    requires forall r <- b :: lt(mid, r.pos)
    ensures Increasing(lt, Positions(a + b))
  {
    var s := Positions(a + b);
    forall i, j | 0 <= i < j < |s| ensures lt(s[i], s[j]) {
      if j < |a| {
        assert lt(Positions(a)[i], Positions(a)[j]);
      } else if i >= |a| {
        assert lt(Positions(b)[i - |a|], Positions(b)[j - |a|]);
      } else {
        assert a[i] in a && b[j - |a|] in b;
      }
    }
  }

  /** A row was seen by some call: it was in the collection then and passed the filter. */
  ghost predicate SeenIn<P>(q: Request<P>, script: seq<Moment<P>>, r: Row<P>) {
    exists m <- script :: r.pos in m.view && r.av == m.view[r.pos] && q.keep(r.av)
  }

  /** Whatever is written between the pages, positions come back in strictly increasing
      order, so none twice, and every row was in the collection when it was read. */
  lemma {:induction false} ListingIncreasing<P(!new)>(q: Request<P>, script: seq<Moment<P>>, start: Option<P>)
    requires StrictOrder(q.lt) && ListFrom(q, script, start).rows.Some?
    ensures var rows := ListFrom(q, script, start).rows.value;
            && Increasing(q.lt, Positions(rows))
            && (forall r <- rows :: After(q.lt, start, r.pos) && SeenIn(q, script, r))
    decreases |script|
  {
    PageIs(q, script[0], start);
    var page := FetchPage(q, script[0], start).value;
    assert script[0] in script;
    if page.last.Some? {
      ListingIncreasing(q, script[1..], page.last);
      var more := ListFrom(q, script[1..], page.last).rows.value;
      JoinIncreasing(q.lt, page.rows, page.last.value, more);
      forall r <- more ensures SeenIn(q, script, r) {
        var m :| m in script[1..] && r.pos in m.view && r.av == m.view[r.pos] && q.keep(r.av);
        assert m in script;
      }
    }
  }

  /** The position holds a matching record in every view. */
  predicate Throughout<P(==)>(q: Request<P>, script: seq<Moment<P>>, p: P) {
    forall m <- script :: p in m.view && q.keep(m.view[p])
  }

  predicate Lists<P(==)>(rows: seq<Row<P>>, p: P) {
    p in Positions(rows)
  }

  lemma ListsConcat<P>(a: seq<Row<P>>, b: seq<Row<P>>, p: P)
    ensures Lists(a + b, p) <==> Lists(a, p) || Lists(b, p)
  {
    assert Positions(a + b) == Positions(a) + Positions(b);
  }

  lemma ListsRow<P>(rows: seq<Row<P>>, r: Row<P>)
    requires r in rows
    ensures Lists(rows, r.pos)
  {
    var i :| 0 <= i < |rows| && rows[i] == r;
    assert Positions(rows)[i] == r.pos;
  }

  /** A page lists a matching record, or stops before it. */
  lemma PageLists<P>(q: Request<P>, m: Moment<P>, start: Option<P>, p: P)
    requires FetchPage(q, m, start).Some? && p in m.view && q.keep(m.view[p]) && After(q.lt, start, p)
    ensures var page := FetchPage(q, m, start).value;
            Lists(page.rows, p) || (page.last.Some? && After(q.lt, page.last, p))
  {
    PageIs(q, m, start);
    var page := FetchPage(q, m, start).value;
    if Row(p, m.view[p]) in page.rows { ListsRow(page.rows, Row(p, m.view[p])); }
  }

  /** A record that is there and matches throughout is listed. */
  lemma {:induction false} ListingComplete<P(!new)>(q: Request<P>, script: seq<Moment<P>>, start: Option<P>, p: P)
    requires StrictOrder(q.lt) && ListFrom(q, script, start).rows.Some?
    requires Throughout(q, script, p) && After(q.lt, start, p)
    ensures Lists(ListFrom(q, script, start).rows.value, p)
    decreases |script|
  {
    assert script[0] in script;
    PageLists(q, script[0], start, p);
    var page := FetchPage(q, script[0], start).value;
    if page.last.Some? {
      assert forall m <- script[1..] :: m in script;
      if !Lists(page.rows, p) { ListingComplete(q, script[1..], page.last, p); }
      ListsConcat(page.rows, ListFrom(q, script[1..], page.last).rows.value, p);
    }
  }

  lemma IncreasingOnce<P(!new)>(lt: (P, P) -> bool, s: seq<P>, p: P)
    requires StrictOrder(lt) && Increasing(lt, s) && p in s
    ensures multiset(s)[p] == 1
  {
    var i :| 0 <= i < |s| && s[i] == p;
    assert s == s[..i] + [p] + s[i + 1..];
    assert p !in s[..i] && p !in s[i + 1..];
    assert multiset(s[..i])[p] == 0 && multiset(s[i + 1..])[p] == 0;
  }

  /** Paged read under interference: every record that is there and matches throughout is
      listed exactly once. */
  lemma ExactlyOnce<P(!new)>(q: Request<P>, script: seq<Moment<P>>, p: P)
    requires StrictOrder(q.lt) && ListFrom(q, script, None).rows.Some? && Throughout(q, script, p)
    ensures multiset(Positions(ListFrom(q, script, None).rows.value))[p] == 1
  {
    ListingIncreasing(q, script, None);
    ListingComplete(q, script, None, p);
    IncreasingOnce(q.lt, Positions(ListFrom(q, script, None).rows.value), p);
  }

  // ----- Still collections -----

  predicate Still<P(==)>(script: seq<Moment<P>>, view: map<P, Attrs>) {
    forall m <- script :: m.view == view
  }

  /** The plain filter of a collection, in order. */
  ghost predicate Enumerates<P(!new)>(q: Request<P>, view: map<P, Attrs>, start: Option<P>, rows: seq<Row<P>>) {
    && Increasing(q.lt, Positions(rows))
    && forall r :: r in rows <==> r.pos in view && r.av == view[r.pos] && q.keep(r.av) && After(q.lt, start, r.pos)
  }

  /** On a still collection the listing is the plain filter. */
  lemma StillListing<P(!new)>(q: Request<P>, script: seq<Moment<P>>, view: map<P, Attrs>, start: Option<P>)
    requires StrictOrder(q.lt) && ListFrom(q, script, start).rows.Some? && Still(script, view)
    ensures Enumerates(q, view, start, ListFrom(q, script, start).rows.value)
  {
    var rows := ListFrom(q, script, start).rows.value;
    ListingIncreasing(q, script, start);
    forall r ensures r in rows <==> r.pos in view && r.av == view[r.pos] && q.keep(r.av) && After(q.lt, start, r.pos) {
      if r in rows {
        var m :| m in script && r.pos in m.view && r.av == m.view[r.pos] && q.keep(r.av);
      }
      if r.pos in view && r.av == view[r.pos] && q.keep(r.av) && After(q.lt, start, r.pos) {
        ListingComplete(q, script, start, r.pos);
        var i :| 0 <= i < |rows| && Positions(rows)[i] == r.pos;
        assert rows[i] in rows && SeenIn(q, script, rows[i]);
        assert rows[i] == r;
      }
    }
  }

  lemma {:induction false} EnumerationUnique<P(!new)>(lt: (P, P) -> bool, a: seq<Row<P>>, b: seq<Row<P>>)
    requires StrictOrder(lt) && Increasing(lt, Positions(a)) && Increasing(lt, Positions(b))
    requires forall r :: r in a <==> r in b
    ensures a == b
    decreases |a|
  {
    if a == [] {
      var r := SomeMember(b);
    } else {
      assert a[0] in a && a[0] in b;
      assert b[0] in b && b[0] in a;
      HeadFirst(lt, b, a[0]);
      HeadFirst(lt, a, b[0]);
      TailIncreasing(lt, a);
      TailIncreasing(lt, b);
      forall r ensures r in a[1..] <==> r in b[1..] {
        HeadOnce(lt, a);
        HeadOnce(lt, b);
        assert a == [a[0]] + a[1..] && b == [b[0]] + b[1..];
        assert r in a <==> r in b;
      }
      EnumerationUnique(lt, a[1..], b[1..]);
    }
  }

  lemma SomeMember<T>(s: seq<T>) returns (x: Option<T>)
    ensures if s == [] then x.None? else x.Some? && x.value in s
  {
    x := if s == [] then None else Some(s[0]);
  }

  lemma HeadFirst<P>(lt: (P, P) -> bool, a: seq<Row<P>>, r: Row<P>)
    requires Increasing(lt, Positions(a)) && r in a
    ensures r == a[0] || lt(a[0].pos, r.pos)
  {
    var i :| 0 <= i < |a| && a[i] == r;
    if i > 0 { assert lt(Positions(a)[0], Positions(a)[i]); }
  }

  lemma TailIncreasing<P>(lt: (P, P) -> bool, a: seq<Row<P>>)
    requires a != [] && Increasing(lt, Positions(a))
    ensures Increasing(lt, Positions(a[1..]))
  {
    forall i, j | 0 <= i < j < |a[1..]| ensures lt(Positions(a[1..])[i], Positions(a[1..])[j]) {
      assert lt(Positions(a)[i + 1], Positions(a)[j + 1]);
    }
  }

  lemma HeadOnce<P(!new)>(lt: (P, P) -> bool, a: seq<Row<P>>)
    requires StrictOrder(lt) && a != [] && Increasing(lt, Positions(a))
    ensures a[0] !in a[1..]
  {
    forall i | 0 < i < |a| ensures a[i] != a[0] {
      assert lt(Positions(a)[0], Positions(a)[i]);
    }
  }

  /** So neither the page size nor the page splits matter. */
  lemma PageSizeIrrelevant<P(!new)>(q: Request<P>, q': Request<P>, script: seq<Moment<P>>, script': seq<Moment<P>>,
                        view: map<P, Attrs>)
    requires StrictOrder(q.lt) && q' == q.(limit := q'.limit)
    requires Still(script, view) && Still(script', view)
    requires ListFrom(q, script, None).rows.Some? && ListFrom(q', script', None).rows.Some?
    ensures ListFrom(q, script, None).rows == ListFrom(q', script', None).rows
  {
    StillListing(q, script, view, None);
    StillListing(q', script', view, None);
    EnumerationUnique(q.lt, ListFrom(q, script, None).rows.value, ListFrom(q', script', None).rows.value);
  }

  // ----- Termination -----

  function Remaining<P>(lt: (P, P) -> bool, view: map<P, Attrs>, start: Option<P>): set<P> {
    set p <- view | After(lt, start, p)
  }

  /** On a still collection a listing takes at most one call more than there are positions. */
  lemma {:induction false} CallsBound<P(!new)>(q: Request<P>, script: seq<Moment<P>>, view: map<P, Attrs>,
                        start: Option<P>)
    requires StrictOrder(q.lt) && Still(script, view)
    ensures |script| - |ListFrom(q, script, start).rest| <= |Remaining(q.lt, view, start)| + 1
    decreases |script|
  {
    if script != [] && FetchPage(q, script[0], start).Some? && FetchPage(q, script[0], start).value.last.Some? {
      PageIs(q, script[0], start);
      assert script[0] in script;
      var last := FetchPage(q, script[0], start).value.last;
      assert forall m <- script[1..] :: m in script;
      CallsBound(q, script[1..], view, last);
      RemainingShrinks(q.lt, view, start, last.value);
    }
  }

  lemma RemainingShrinks<P(!new)>(lt: (P, P) -> bool, view: map<P, Attrs>, start: Option<P>, last: P)
    requires StrictOrder(lt) && last in view && After(lt, start, last)
    ensures |Remaining(lt, view, Some(last))| < |Remaining(lt, view, start)|
  {
    var a, b := Remaining(lt, view, Some(last)), Remaining(lt, view, start);
    assert last in b && last !in a;
    assert a <= b;
    Smaller(a, b, last);
  }

  lemma {:induction false} Subset<T>(a: set<T>, b: set<T>)
    requires a <= b
    ensures |a| <= |b|
  {
    if x :| x in a { Subset(a - {x}, b - {x}); }
  }

  lemma Smaller<T>(a: set<T>, b: set<T>, x: T)
    requires a <= b && x in b && x !in a
    ensures |a| < |b|
  {
    Subset(a, b - {x});
  }

  // ----- Ranges -----

  /** The part of a collection that a request ranges over. */
  function InRange<P>(among: (P, Attrs) -> bool, view: map<P, Attrs>): map<P, Attrs> {
    map p | p in view && among(p, view[p]) :: view[p]
  }

  function Narrow<P>(among: (P, Attrs) -> bool, m: Moment<P>): Moment<P> {
    Moment(InRange(among, m.view), m.reply)
  }

  function NarrowAll<P>(among: (P, Attrs) -> bool, script: seq<Moment<P>>): seq<Moment<P>> {
    seq(|script|, i requires 0 <= i < |script| => Narrow(among, script[i]))
  }

  /** The connection: what the collection will be, and what the service will answer, call by
      call. */
  class PageWire<P(==)> {
    var script: seq<Moment<P>>

    method Call(q: Request<P>, among: (P, Attrs) -> bool, start: Option<P>) returns (page: Option<Fetched<P>>)
      modifies this
      ensures if old(script) == [] then page == None && script == []
              else page == FetchPage(q, Narrow(among, old(script)[0]), start) && script == old(script)[1..]
    {
      if script == [] { return None; }
      page := FetchPage(q, Narrow(among, script[0]), start);
      script := script[1..];
    }

    /** One pass of the loop, for the items collected before it. */
    method Next(q: Request<P>, among: (P, Attrs) -> bool, ghost items: seq<Row<P>>, start: Option<P>)
      returns (page: Option<Fetched<P>>)
      modifies this
      ensures |script| == if old(script) == [] then 0 else |old(script)| - 1
      ensures page.Some? ==> old(script) != []
      ensures old(Ahead(items, ListFrom(q, NarrowAll(among, script), start)))
              == if page.None? then Listing(None, NarrowAll(among, script))
                 else if page.value.last.None? then Listing(Some(items + page.value.rows), NarrowAll(among, script))
                 else Ahead(items + page.value.rows, ListFrom(q, NarrowAll(among, script), page.value.last))
    {
      ListStep(q, among, script, start);
      page := Call(q, among, start);
      if page.Some? && page.value.last.Some? {
        AheadAhead(items, page.value.rows, ListFrom(q, NarrowAll(among, script), page.value.last));
      }
    }

    /** The loop of QueryBuilder.All and scanSegment. */
    method ListAll(q: Request<P>, among: (P, Attrs) -> bool) returns (rows: Option<seq<Row<P>>>)
      modifies this
      ensures Listing(rows, NarrowAll(among, script)) == ListFrom(q, NarrowAll(among, old(script)), None)
    {
      var items: seq<Row<P>> := [];
      var start: Option<P> := None;
      ghost var all := ListFrom(q, NarrowAll(among, script), None);
      AheadNothing(all);
      while true
        invariant all == Ahead(items, ListFrom(q, NarrowAll(among, script), start))
        decreases |script|
      {
        var page := Next(q, among, items, start);
        if page.None? { return None; }
        items := items + page.value.rows;
        if page.value.last.None? { return Some(items); }
        start := page.value.last;
      }
    }
  }

  function Ahead<P>(rows: seq<Row<P>>, l: Listing<P>): Listing<P> {
    l.(rows := if l.rows.None? then None else Some(rows + l.rows.value))
  }

  lemma AheadNothing<P>(l: Listing<P>)
    ensures Ahead([], l) == l
  {
    if l.rows.Some? { assert [] + l.rows.value == l.rows.value; }
  }

  lemma AheadAhead<P>(a: seq<Row<P>>, b: seq<Row<P>>, l: Listing<P>)
    ensures Ahead(a, Ahead(b, l)) == Ahead(a + b, l)
  {
    if l.rows.Some? { assert a + (b + l.rows.value) == (a + b) + l.rows.value; }
  }

  lemma ListStep<P>(q: Request<P>, among: (P, Attrs) -> bool, script: seq<Moment<P>>, start: Option<P>)
    ensures ListFrom(q, NarrowAll(among, script), start)
            == if script == [] then Listing(None, [])
               else
                 var page, rest := FetchPage(q, Narrow(among, script[0]), start), NarrowAll(among, script[1..]);
                 if page.None? then Listing(None, rest)
                 else if page.value.last.None? then Listing(Some(page.value.rows), rest)
                 else Ahead(page.value.rows, ListFrom(q, rest, page.value.last))
  {
    if script != [] { assert NarrowAll(among, script)[1..] == NarrowAll(among, script[1..]); }
  }

  // ----- Listing a range of a collection -----

  /** A record in range that passes the filter. */
  predicate Wanted<P>(q: Request<P>, among: (P, Attrs) -> bool, p: P, av: Attrs) {
    among(p, av) && q.keep(av)
  }

  predicate WantedThroughout<P(==)>(q: Request<P>, among: (P, Attrs) -> bool, script: seq<Moment<P>>, p: P) {
    forall m <- script :: p in m.view && Wanted(q, among, p, m.view[p])
  }

  ghost predicate WasThere<P>(script: seq<Moment<P>>, r: Row<P>) {
    exists m <- script :: r.pos in m.view && m.view[r.pos] == r.av
  }

  lemma NarrowAt<P>(among: (P, Attrs) -> bool, script: seq<Moment<P>>, m: Moment<P>) returns (from: Moment<P>)
    requires m in NarrowAll(among, script)
    ensures from in script && m == Narrow(among, from)
  {
    var i :| 0 <= i < |script| && NarrowAll(among, script)[i] == m;
    from := script[i];
  }

  /** Listing a range under interference: strictly increasing, sound, and exactly once for
      every wanted record that stays. */
  lemma RangeListing<P(!new)>(q: Request<P>, among: (P, Attrs) -> bool, script: seq<Moment<P>>)
    requires StrictOrder(q.lt) && ListFrom(q, NarrowAll(among, script), None).rows.Some?
    ensures var rows := ListFrom(q, NarrowAll(among, script), None).rows.value;
            && Increasing(q.lt, Positions(rows))
            && (forall r <- rows :: Wanted(q, among, r.pos, r.av) && WasThere(script, r))
            && (forall p | WantedThroughout(q, among, script, p) :: multiset(Positions(rows))[p] == 1)
  {
    var s := NarrowAll(among, script);
    var rows := ListFrom(q, s, None).rows.value;
    ListingIncreasing(q, s, None);
    forall r <- rows ensures Wanted(q, among, r.pos, r.av) && WasThere(script, r) {
      assert SeenIn(q, s, r);
      var m :| m in s && r.pos in m.view && r.av == m.view[r.pos] && q.keep(r.av);
      var from := NarrowAt(among, script, m);
    }
    forall p | WantedThroughout(q, among, script, p) ensures multiset(Positions(rows))[p] == 1 {
      forall m <- s ensures p in m.view && q.keep(m.view[p]) {
        var from := NarrowAt(among, script, m);
      }
      ExactlyOnce(q, s, p);
    }
  }

  /** Listing a range of a still collection: exactly the wanted records, in order. */
  lemma RangeStill<P(!new)>(q: Request<P>, among: (P, Attrs) -> bool, script: seq<Moment<P>>, view: map<P, Attrs>)
    requires StrictOrder(q.lt) && Still(script, view) && ListFrom(q, NarrowAll(among, script), None).rows.Some?
    ensures var rows := ListFrom(q, NarrowAll(among, script), None).rows.value;
            && Increasing(q.lt, Positions(rows))
            && forall r :: r in rows <==> r.pos in view && r.av == view[r.pos] && Wanted(q, among, r.pos, r.av)
  {
    var s := NarrowAll(among, script);
    forall m <- s ensures m.view == InRange(among, view) {
      var from := NarrowAt(among, script, m);
    }
    StillListing(q, s, InRange(among, view), None);
  }
}
