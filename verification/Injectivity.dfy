/** When a key determines the values it is made of. */
module Injectivity {
  import opened Text
  import opened Store
  import opened Tags
  import opened Model
  import opened Keys

  // ----- Cutting joined texts -----

  lemma FirstCut(x: string, p: string, y: string, k: string)
    requires Free(x, '#') && Free(y, '#') && x + ['#'] + p == y + ['#'] + k
    ensures x == y && p == k
  {
    var s := x + ['#'] + p;
    FirstSeparator(x, p, '#');
    FirstSeparator(y, k, '#');
    assert s[..|x|] == x && s[..|y|] == y && s[|x| + 1..] == p && s[|y| + 1..] == k;
  }

  lemma LastLength(p: string, x: string, k: string, y: string)
    requires Free(y, '#') && p + ['#'] + x == k + ['#'] + y
    ensures |x| >= |y|
  {
    var s := p + ['#'] + x;
    assert s[|p|] == '#';
    assert forall m | |k| < m < |s| :: s[m] == y[m - |k| - 1] && y[m - |k| - 1] in y;
  }

  lemma LastCut(p: string, x: string, k: string, y: string)
    requires Free(x, '#') && Free(y, '#') && p + ['#'] + x == k + ['#'] + y
    ensures p == k && x == y
  {
    var s := p + ['#'] + x;
    LastLength(p, x, k, y);
    LastLength(k, y, p, x);
    assert s[..|p|] == p && s[..|k|] == k && s[|p| + 1..] == x && s[|k| + 1..] == y;
  }

  lemma JoinTail(a: seq<string>)
    requires |a| > 1
    ensures Join(a, '#') == a[0] + ['#'] + Join(a[1..], '#')
  {}

  lemma JoinFront(a: seq<string>)
    requires |a| > 1
    ensures Join(a, '#') == Join(a[..|a| - 1], '#') + ['#'] + a[|a| - 1]
  {
    JoinSnoc(a[..|a| - 1], a[|a| - 1], '#');
    assert a == a[..|a| - 1] + [a[|a| - 1]];
  }

  /** A joined text determines its parts when at most the one at p holds '#': the others are
      cut off from both ends. */
  lemma {:induction false} JoinDetermines(a: seq<string>, b: seq<string>, p: int)
    requires |a| == |b| && a != [] && Join(a, '#') == Join(b, '#')
    requires forall i | 0 <= i < |a| && i != p :: Free(a[i], '#') && Free(b[i], '#')
    ensures a == b
    decreases |a|
  {
    var n := |a| - 1;
    if n == 0 {
      assert a == [Join(a, '#')] && b == [Join(b, '#')];
    } else if p != 0 {
      JoinTail(a);
      JoinTail(b);
      FirstCut(a[0], Join(a[1..], '#'), b[0], Join(b[1..], '#'));
      JoinDetermines(a[1..], b[1..], p - 1);
      assert a == [a[0]] + a[1..] && b == [b[0]] + b[1..];
    } else {
      JoinFront(a);
      JoinFront(b);
      LastCut(Join(a[..n], '#'), a[n], Join(b[..n], '#'), b[n]);
      JoinDetermines(a[..n], b[..n], p);
      assert a == a[..n] + [a[n]] && b == b[..n] + [b[n]];
    }
  }

  // ----- Keys -----

  /** Of the struct name and the listed values, only those at the given positions hold '#'. */
  predicate HashOnlyAt(e: Entity, fields: seq<string>, at: set<int>)
    requires forall f <- fields :: HasField(e, f)
  {
    Free(e.t.name, '#') && forall i | 0 <= i < |fields| && i !in at :: Free(FieldText(e, fields[i]), '#')
  }

  // ----- Texts determine values -----

  lemma {:induction false} DecimalNatDetermines(m: nat, n: nat)
    requires DecimalNat(m) == DecimalNat(n)
    ensures m == n
    decreases m
  {
    if m < 10 || n < 10 {
      DecimalNatDigits(m);
      DecimalNatDigits(n);
      DigitDetermines(m % 10, n % 10);
    } else {
      var a, b := DecimalNat(m / 10), DecimalNat(n / 10);
      assert (a + [Digit(m % 10)])[..|a|] == a && (b + [Digit(n % 10)])[..|b|] == b;
      DigitDetermines(m % 10, n % 10);
      DecimalNatDetermines(m / 10, n / 10);
    }
  }

  /** A decimal text ends in the last digit, and has no other exactly below ten. */
  lemma {:induction false} DecimalNatDigits(n: nat)
    ensures var s := DecimalNat(n);
            |s| >= 1 && s[|s| - 1] == Digit(n % 10) && (|s| == 1 <==> n < 10)
  {
    if n < 10 {
    } else {
      DecimalNatDigits(n / 10);
    }
  }

  lemma DigitDetermines(m: nat, n: nat)
    requires m < 10 && n < 10 && Digit(m) == Digit(n)
    ensures m == n
  {
    var digits := "0123456789";
    assert forall i, j | 0 <= i < j < 10 :: digits[i] != digits[j];
  }

  lemma {:induction false} DecimalNatPlain(n: nat)
    ensures forall c <- DecimalNat(n) :: '0' <= c <= '9'
  {
    if n < 10 {
    } else {
      DecimalNatPlain(n / 10);
    }
  }

  lemma DecimalDetermines(m: int, n: int)
    requires Decimal(m) == Decimal(n)
    ensures m == n
  {
    var p, q: nat := if m < 0 then -m else m, if n < 0 then -n else n;
    DecimalNatDigits(p);
    DecimalNatDigits(q);
    DecimalNatPlain(p);
    DecimalNatPlain(q);
    assert DecimalNat(p)[0] in DecimalNat(p) && DecimalNat(q)[0] in DecimalNat(q);
    assert ("-" + DecimalNat(p))[1..] == DecimalNat(p) && ("-" + DecimalNat(q))[1..] == DecimalNat(q);
    DecimalNatDetermines(p, q);
  }

  lemma DecimalsPlain(b: seq<Byte>)
    ensures forall s <- Decimals(b) :: s != "" && Free(s, ' ')
  {
    forall i | 0 <= i < |b| ensures Decimals(b)[i] != "" && Free(Decimals(b)[i], ' ') {
      DecimalNatPlain(b[i]);
      DecimalNatDigits(b[i]);
    }
  }

  lemma JoinNotEmpty(parts: seq<string>)
    requires parts != [] && forall s <- parts :: s != ""
    ensures Join(parts, ' ') != ""
  {
    assert parts[0] in parts;
  }

  lemma BytesDetermine(b: seq<Byte>, d: seq<Byte>)
    requires Join(Decimals(b), ' ') == Join(Decimals(d), ' ')
    ensures b == d
  {
    DecimalsPlain(b);
    DecimalsPlain(d);
    if b == [] || d == [] {
      if b != [] { JoinNotEmpty(Decimals(b)); }
      if d != [] { JoinNotEmpty(Decimals(d)); }
    } else {
      SplitOfJoin(Decimals(b), ' ');
      SplitOfJoin(Decimals(d), ' ');
      assert |Decimals(b)| == |b| && |Decimals(d)| == |d|;
      forall i | 0 <= i < |b| ensures b[i] == d[i] {
        assert Decimals(b)[i] == Decimals(d)[i];
        DecimalDetermines(b[i], d[i]);
      }
    }
  }

  /** Within one kind the printed text determines the value. */
  lemma SprintDetermines(v: Value, w: Value)
    requires SameKind(v, w) && Sprint(v) == Sprint(w)
    ensures v == w
  {
    match v
    case S(_) =>
    case N(n) => DecimalDetermines(n, w.n);
    case B(b) =>
      var x, y := Join(Decimals(b), ' '), Join(Decimals(w.b), ' ');
      assert ("[" + x + "]")[1..|x| + 1] == x && ("[" + y + "]")[1..|y| + 1] == y;
      BytesDetermine(b, w.b);
  }

  lemma FieldKind(d: Entity, e: Entity, name: string)
    requires d.t == e.t && WellTyped(d) && WellTyped(e) && HasField(d, name) && HasField(e, name)
    ensures SameKind(FieldValue(d, name), FieldValue(e, name))
  {
    if !ModelName(name) {
      var f :| f in Layout(d.t) && f.name == name;
      assert SameKind(d.fields[f.name], f.zero) && SameKind(e.fields[f.name], f.zero);
    }
  }

  lemma TextsDetermine(d: Entity, e: Entity, fields: seq<string>)
    requires d.t == e.t && WellTyped(d) && WellTyped(e) && forall f <- fields :: HasField(d, f) && HasField(e, f)
    ensures Texts(d, fields) == Texts(e, fields) <==> forall f <- fields :: FieldValue(d, f) == FieldValue(e, f)
  {
    if Texts(d, fields) == Texts(e, fields) {
      forall f <- fields ensures FieldValue(d, f) == FieldValue(e, f) {
        var i :| 0 <= i < |fields| && fields[i] == f;
        assert Texts(d, fields)[i] == Texts(e, fields)[i];
        FieldKind(d, e, f);
        SprintDetermines(FieldValue(d, f), FieldValue(e, f));
      }
    }
    if forall f <- fields :: FieldValue(d, f) == FieldValue(e, f) {
      forall i | 0 <= i < |fields| ensures Texts(d, fields)[i] == Texts(e, fields)[i] {
        assert fields[i] in fields;
      }
    }
  }

  lemma KeyDeterminesTexts(d: Entity, e: Entity, fields: seq<string>, p: int)
    requires forall f <- fields :: HasField(d, f) && HasField(e, f)
    requires HashOnlyAt(d, fields, {p}) && HashOnlyAt(e, fields, {p})
    ensures KeyText(d, fields) == KeyText(e, fields)
            <==> d.t.name == e.t.name && Texts(d, fields) == Texts(e, fields)
  {
    var a, b := [d.t.name] + Texts(d, fields), [e.t.name] + Texts(e, fields);
    assert a[1..] == Texts(d, fields) && b[1..] == Texts(e, fields);
    if KeyText(d, fields) == KeyText(e, fields) {
      JoinDetermines(a, b, if p < 0 then -1 else p + 1);
      assert a[0] == b[0];
    }
  }

  /** When at most one position may hold '#', the keys of two values of a type are equal if and
      only if all listed fields are; of a time the key holds the printed text. */
  lemma KeyDeterminesFields(d: Entity, e: Entity, fields: seq<string>, p: int)
    requires d.t == e.t && WellTyped(d) && WellTyped(e) && forall f <- fields :: HasField(d, f) && HasField(e, f)
    requires HashOnlyAt(d, fields, {p}) && HashOnlyAt(e, fields, {p})
    ensures KeyText(d, fields) == KeyText(e, fields)
            <==> forall f <- fields :: FieldValue(d, f) == FieldValue(e, f)
  {
    KeyDeterminesTexts(d, e, fields, p);
    TextsDetermine(d, e, fields);
  }

  // ----- Collisions -----

  /** A field that can hold any text. */
  predicate TextField(t: StructType, name: string) {
    name == "CreatedBy" || name == "UpdatedBy" ||
    (!ModelName(name) && Find(Layout(t), name).Some? && Find(Layout(t), name).value.zero.S?)
  }

  function SetText(e: Entity, name: string, text: string): Entity {
    if name == "CreatedBy" then e.(createdBy := text)
    else if name == "UpdatedBy" then e.(updatedBy := text)
    else e.(fields := e.fields[name := S(text)])
  }

  lemma SetFieldOk(e: Entity, f: Field, text: string)
    requires WellTyped(e) && f in Layout(e.t) && f.zero.S?
    ensures WellTyped(e.(fields := e.fields[f.name := S(text)]))
  {
    var s := e.(fields := e.fields[f.name := S(text)]);
    assert s.fields.Keys == e.fields.Keys;
    forall g <- Layout(e.t) ensures SameKind(s.fields[g.name], g.zero) {
      if g.name == f.name { SameField(Layout(e.t), f, g); }
    }
  }

  lemma OwnText(e: Entity, name: string, text: string)
    requires !ModelName(name)
    ensures FieldText(e.(fields := e.fields[name := S(text)]), name) == text
  {}

  lemma OtherText(e: Entity, name: string, text: string, n: string)
    requires !ModelName(name) && n != name && HasField(e, n)
    ensures var s := e.(fields := e.fields[name := S(text)]); HasField(s, n) && FieldText(s, n) == FieldText(e, n)
  {}

  lemma SetOwnText(e: Entity, name: string, text: string)
    requires WellTyped(e) && !ModelName(name) && TextField(e.t, name)
    ensures var s := e.(fields := e.fields[name := S(text)]);
            WellTyped(s) && FieldText(s, name) == text
            && forall n | n != name && HasField(e, n) :: HasField(s, n) && FieldText(s, n) == FieldText(e, n)
  {
    FindIn(Layout(e.t), name);
    SetFieldOk(e, Find(Layout(e.t), name).value, text);
    OwnText(e, name, text);
    var s := e.(fields := e.fields[name := S(text)]);
    forall n | n != name && HasField(e, n) ensures HasField(s, n) && FieldText(s, n) == FieldText(e, n) {
      OtherText(e, name, text, n);
    }
  }

  lemma SetAudit(e: Entity, creator: string, updater: string)
    requires WellTyped(e)
    ensures var s := e.(createdBy := creator, updatedBy := updater);
            WellTyped(s) && forall n | n != "CreatedBy" && n != "UpdatedBy" && HasField(e, n) ::
                              HasField(s, n) && FieldText(s, n) == FieldText(e, n)
  {}

  lemma SetTextOk(e: Entity, name: string, text: string)
    requires WellTyped(e) && TextField(e.t, name)
    ensures var s := SetText(e, name, text);
            && s.t == e.t && WellTyped(s)
            && HasField(s, name) && FieldText(s, name) == text
            && forall n | n != name && HasField(e, n) :: HasField(s, n) && FieldText(s, n) == FieldText(e, n)
  {
    if !ModelName(name) {
      SetOwnText(e, name, text);
    } else if name == "CreatedBy" {
      SetAudit(e, text, e.updatedBy);
    } else {
      SetAudit(e, e.createdBy, text);
    }
  }

  lemma NilFree()
    ensures Free(NIL_ID, '#')
  {}

  lemma ZeroTimeFree()
    ensures Free(ZERO_TIME.text, '#')
  {}

  lemma ModelTextFree(t: StructType, f: string)
    requires ModelName(f)
    ensures Free(FieldText(ZeroEntity(t, NIL_ID), f), '#')
  {
    var v := FieldValue(ZeroEntity(t, NIL_ID), f);
    if v == S(NIL_ID) {
      NilFree();
    } else if v == S(ZERO_TIME.text) {
      ZeroTimeFree();
    } else {
      assert v == S("") || v == N(0);
    }
  }

  lemma ZeroTextFree(t: StructType, f: string)
    requires WellFormedType(t) && HasField(ZeroEntity(t, NIL_ID), f)
    ensures Free(FieldText(ZeroEntity(t, NIL_ID), f), '#')
  {
    if ModelName(f) {
      ModelTextFree(t, f);
    } else {
      ZeroFieldsZero(Layout(t));
      ZeroPrintFree(ZeroFields(Layout(t))[f]);
    }
  }

  lemma ZeroPrintFree(v: Value)
    requires IsZero(v)
    ensures Free(Sprint(v), '#')
  {
    assert Decimals([]) == [] && Join(Decimals([]), ' ') == "";
  }

  /** The text before, and the text after, the fields between two positions. */
  function Before(mid: seq<string>): string {
    if mid == [] then "#" else ['#'] + Join(mid, '#')
  }

  function Behind(mid: seq<string>): string {
    if mid == [] then "#" else Join(mid, '#') + ['#']
  }

  lemma MiddleCollides(mid: seq<string>)
    ensures Join([""] + mid + [Behind(mid)], '#') == Join([Before(mid)] + mid + [""], '#')
  {
    JoinSnoc([""] + mid, Behind(mid), '#');
    JoinSnoc([Before(mid)] + mid, "", '#');
    if mid == [] {
      assert [""] + mid == [""] && [Before(mid)] + mid == [Before(mid)];
    } else {
      assert ([""] + mid)[1..] == mid && ([Before(mid)] + mid)[1..] == mid;
      var m := Join(mid, '#');
      assert "" + ['#'] + m + ['#'] + (m + ['#']) == (['#'] + m) + ['#'] + m + ['#'] + "";
    }
  }

  lemma JoinAround(front: seq<string>, m: seq<string>, m': seq<string>, back: seq<string>)
    requires front != [] && m != [] && m' != [] && Join(m, '#') == Join(m', '#')
    ensures Join(front + m + back, '#') == Join(front + m' + back, '#')
  {
    JoinConcat(front, m, '#');
    JoinConcat(front, m', '#');
    if back == [] {
      assert front + m + back == front + m && front + m' + back == front + m';
    } else {
      JoinConcat(front + m, back, '#');
      JoinConcat(front + m', back, '#');
    }
  }

  predicate DistinctFields(fields: seq<string>) {
    forall i, j | 0 <= i < j < |fields| :: fields[i] != fields[j]
  }

  /** The zero entity with two of its fields set. */
  function WithTexts(t: StructType, fields: seq<string>, i: nat, x: string, j: nat, y: string): Entity
    requires i < |fields| && j < |fields|
  {
    SetText(SetText(ZeroEntity(t, NIL_ID), fields[i], x), fields[j], y)
  }

  lemma WithTextsOk(t: StructType, fields: seq<string>, i: nat, x: string, j: nat, y: string)
    requires WellFormedType(t) && DistinctFields(fields) && i < j < |fields|
    requires forall f <- fields :: HasField(ZeroEntity(t, NIL_ID), f)
    requires TextField(t, fields[i]) && TextField(t, fields[j])
    ensures var e, z := WithTexts(t, fields, i, x, j, y), Texts(ZeroEntity(t, NIL_ID), fields);
            && e.t == t && WellTyped(e) && (forall f <- fields :: HasField(e, f))
            && Texts(e, fields) == z[i := x][j := y]
  {
    var zero := ZeroEntity(t, NIL_ID);
    ZeroWellTyped(t, NIL_ID);
    SetTextOk(zero, fields[i], x);
    SetTextOk(SetText(zero, fields[i], x), fields[j], y);
    var e, z := WithTexts(t, fields, i, x, j, y), Texts(zero, fields);
    forall k | 0 <= k < |fields| ensures HasField(e, fields[k]) && FieldText(e, fields[k]) == z[i := x][j := y][k] {
      assert fields[k] in fields;
      if k != i && k != j { assert fields[k] != fields[i] && fields[k] != fields[j]; }
    }
    assert forall f <- fields :: HasField(e, f);
  }

  lemma Around(name: string, z: seq<string>, i: nat, x: string, j: nat, y: string)
    requires i < j < |z|
    ensures [name] + z[i := x][j := y] == ([name] + z[..i]) + ([x] + z[i + 1..j] + [y]) + z[j + 1..]
  {}

  /** With '#' allowed at two positions keys collide: one '#' moves through the fields in
      between, whatever those are. */
  lemma SeparatorsCollide(t: StructType, fields: seq<string>, i: nat, j: nat) returns (d: Entity, e: Entity)
    requires WellFormedType(t) && Free(t.name, '#') && DistinctFields(fields) && i < j < |fields|
    requires forall f <- fields :: HasField(ZeroEntity(t, NIL_ID), f)
    requires TextField(t, fields[i]) && TextField(t, fields[j])
    ensures d.t == e.t == t && WellTyped(d) && WellTyped(e) && forall f <- fields :: HasField(d, f) && HasField(e, f)
    ensures HashOnlyAt(d, fields, {i, j}) && HashOnlyAt(e, fields, {i, j})
    ensures KeyText(d, fields) == KeyText(e, fields) && Texts(d, fields)[i] != Texts(e, fields)[i]
  {
    var z := Texts(ZeroEntity(t, NIL_ID), fields);
    var mid := z[i + 1..j];
    d, e := WithTexts(t, fields, i, "", j, Behind(mid)), WithTexts(t, fields, i, Before(mid), j, "");
    WithTextsOk(t, fields, i, "", j, Behind(mid));
    WithTextsOk(t, fields, i, Before(mid), j, "");
    ZeroElsewhere(t, fields, i, j, d);
    ZeroElsewhere(t, fields, i, j, e);
    Around(t.name, z, i, "", j, Behind(mid));
    Around(t.name, z, i, Before(mid), j, "");
    MiddleCollides(mid);
    JoinAround([t.name] + z[..i], [""] + mid + [Behind(mid)], [Before(mid)] + mid + [""], z[j + 1..]);
  }

  lemma ZeroElsewhere(t: StructType, fields: seq<string>, i: nat, j: nat, e: Entity)
    requires WellFormedType(t) && Free(t.name, '#') && e.t == t && i < |fields| && j < |fields|
    requires forall f <- fields :: HasField(ZeroEntity(t, NIL_ID), f) && HasField(e, f)
    requires forall k | 0 <= k < |fields| && k != i && k != j ::
               Texts(e, fields)[k] == Texts(ZeroEntity(t, NIL_ID), fields)[k]
    ensures HashOnlyAt(e, fields, {i, j})
  {
    forall k | 0 <= k < |fields| && k !in {i, j} ensures Free(FieldText(e, fields[k]), '#') {
      assert FieldText(e, fields[k]) == Texts(e, fields)[k];
      ZeroTextFree(t, fields[k]);
    }
  }

  // ----- Exactly when -----

  /** A value of the type whose listed fields hold '#' at the given positions only. */
  predicate Allowed(t: StructType, fields: seq<string>, at: set<int>, e: Entity) {
    e.t == t && WellTyped(e) && (forall f <- fields :: HasField(e, f)) && HashOnlyAt(e, fields, at)
  }

  /** Equal keys come from equal values. */
  ghost predicate Injective(t: StructType, fields: seq<string>, at: set<int>) {
    forall d: Entity, e: Entity | Allowed(t, fields, at, d) && Allowed(t, fields, at, e) ::
      KeyText(d, fields) == KeyText(e, fields) ==> forall f <- fields :: FieldValue(d, f) == FieldValue(e, f)
  }

  lemma Member<T>(s: set<T>) returns (x: T)
    requires s != {}
    ensures x in s
  {
    x :| x in s;
  }

  lemma TwoOf(at: set<int>) returns (i: int, j: int)
    requires |at| > 1
    ensures i in at && j in at && i < j
  {
    assert at != {};
    var a := Member(at);
    assert |at - {a}| > 0 && at - {a} != {};
    var b := Member(at - {a});
    i, j := if a < b then a else b, if a < b then b else a;
  }

  lemma AtMostOne(at: set<int>) returns (p: int)
    requires |at| <= 1
    ensures at <= {p}
  {
    p := -1;
    if at != {} {
      p := Member(at);
      assert |at - {p}| == 0 && at - {p} == {};
    }
  }

  lemma AllowedMore(t: StructType, fields: seq<string>, at: set<int>, more: set<int>, e: Entity)
    requires Allowed(t, fields, at, e) && at <= more
    ensures Allowed(t, fields, more, e)
  {}

  /** For distinct listed fields, of which those at the given positions may hold any text and
      the others no '#', keys are injective if and only if there is at most one such position. */
  lemma InjectiveIff(t: StructType, fields: seq<string>, at: set<int>)
    requires WellFormedType(t) && Free(t.name, '#') && DistinctFields(fields)
    requires forall f <- fields :: HasField(ZeroEntity(t, NIL_ID), f)
    requires forall i <- at :: 0 <= i < |fields| && TextField(t, fields[i])
    ensures Injective(t, fields, at) <==> |at| <= 1
  {
    if |at| <= 1 {
      var p := AtMostOne(at);
      forall d: Entity, e: Entity | Allowed(t, fields, at, d) && Allowed(t, fields, at, e)
        ensures KeyText(d, fields) == KeyText(e, fields) ==> forall f <- fields :: FieldValue(d, f) == FieldValue(e, f)
      {
        AllowedMore(t, fields, at, {p}, d);
        AllowedMore(t, fields, at, {p}, e);
        KeyDeterminesFields(d, e, fields, p);
      }
    } else {
      var i, j := TwoOf(at);
      var d, e := SeparatorsCollide(t, fields, i, j);
      AllowedMore(t, fields, {i, j}, at, d);
      AllowedMore(t, fields, {i, j}, at, e);
      TextsDetermine(d, e, fields);
    }
  }
}
