/** The environment: a table of items addressed by (PK, SK), with condition evaluation,
    update actions and atomic multi-item writes, as the library's requests rely on them. */
module Store {
  import opened Text

  type Byte = b: int | 0 <= b < 256

  datatype Value = S(s: string) | N(n: int) | B(b: seq<Byte>)

  type Attrs = map<string, Value>

  datatype Key = Key(pk: string, sk: string)

  type Table = map<Key, Attrs>

  // ----- Conditions -----

  datatype CmpOp = Eq | Ne | Gt | Ge | Lt | Le

  datatype Cond =
    | Always
    | Compare(name: string, op: CmpOp, value: Value)
    | BeginsWith(name: string, prefix: string)
    | Contains(name: string, value: Value)
    | Exists(name: string)
    | NotExists(name: string)
    | And(left: Cond, right: Cond)

  predicate LessBytes(a: seq<Byte>, b: seq<Byte>) {
    if b == [] then false
    else if a == [] then true
    else if a[0] != b[0] then a[0] < b[0]
    else LessBytes(a[1..], b[1..])
  }

  /** Values of different kinds are never ordered. */
  predicate LessValue(a: Value, b: Value) {
    match (a, b)
    case (S(x), S(y)) => Less(x, y)
    case (N(x), N(y)) => x < y
    case (B(x), B(y)) => LessBytes(x, y)
    case _ => false
  }

  predicate CompareValues(op: CmpOp, a: Value, b: Value) {
    match op
    case Eq => a == b
    case Ne => a != b
    case Gt => LessValue(b, a)
    case Ge => LessValue(b, a) || a == b
    case Lt => LessValue(a, b)
    case Le => LessValue(a, b) || a == b
  }

  predicate Infix<T(==)>(part: seq<T>, whole: seq<T>) {
    part <= whole || (whole != [] && Infix(part, whole[1..]))
  }

  /** A condition is evaluated on the item's attributes; a missing item has none. */
  predicate Holds(c: Cond, item: Attrs) {
    match c
    case Always => true
    case Compare(name, op, value) =>
      if name in item then CompareValues(op, item[name], value) else op == Ne
    case BeginsWith(name, prefix) => name in item && item[name].S? && prefix <= item[name].s
    case Contains(name, value) =>
      name in item &&
      (match (item[name], value)
       case (S(whole), S(part)) => Infix(part, whole)
       case (B(whole), B(part)) => Infix(part, whole)
       case _ => false)
    case Exists(name) => name in item
    case NotExists(name) => name !in item
    case And(l, r) => Holds(l, item) && Holds(r, item)
  }

  // ----- Writes -----

  datatype Change = SetAttr(name: string, value: Value) | AddNum(name: string, delta: int)

  datatype Write =
    | PutItem(item: Attrs, cond: Cond)
    | UpdateItem(key: Key, changes: seq<Change>, cond: Cond)
    | DeleteItem(key: Key)
    | Check(key: Key, cond: Cond)

  /** The key an item carries in its own attributes. */
  function KeyOf(item: Attrs): Option<Key> {
    if "PK" in item && "SK" in item && item["PK"].S? && item["SK"].S?
    then Some(Key(item["PK"].s, item["SK"].s)) else None
  }

  function Target(w: Write): Option<Key> {
    match w
    case PutItem(item, _) => KeyOf(item)
    case UpdateItem(key, _, _) => Some(key)
    case DeleteItem(key) => Some(key)
    case Check(key, _) => Some(key)
  }

  function Guard(w: Write): Cond {
    if w.DeleteItem? then Always else w.cond
  }

  predicate DistinctNames(cs: seq<Change>) {
    forall i, j | 0 <= i < j < |cs| :: cs[i].name != cs[j].name
  }

  /** What the service rejects without looking at the stored item: a put without key
      attributes, and an update that names an attribute twice, a key attribute or no attribute. */
  predicate WellFormed(w: Write) {
    && Target(w).Some?
    && (w.UpdateItem? ==>
          DistinctNames(w.changes) && forall c <- w.changes :: c.name !in {"", "PK", "SK"})
  }

  predicate AddsToNumbers(item: Attrs, cs: seq<Change>) {
    forall c <- cs :: c.AddNum? && c.name in item ==> item[c.name].N?
  }

  function ItemOf(was: Option<Attrs>): Attrs {
    if was.Some? then was.value else map[]
  }

  function VersionOf(item: Attrs): Option<int> {
    if "Version" in item && item["Version"].N? then Some(item["Version"].n) else None
  }

  datatype Verdict = Accepted | ConditionFailed | Invalid

  function Judge(was: Option<Attrs>, w: Write): Verdict {
    if !WellFormed(w) then Invalid
    else if !Holds(Guard(w), ItemOf(was)) then ConditionFailed
    else if w.UpdateItem? && !AddsToNumbers(ItemOf(was), w.changes) then Invalid
    else Accepted
  }

  function ApplyChange(item: Attrs, c: Change): Attrs {
    match c
    case SetAttr(name, value) => item[name := value]
    case AddNum(name, delta) =>
      if name !in item then item[name := N(delta)]
      else if item[name].N? then item[name := N(item[name].n + delta)]
      else item
  }

  function ApplyChanges(item: Attrs, cs: seq<Change>): Attrs
    decreases |cs|
  {
    if cs == [] then item else ApplyChanges(ApplyChange(item, cs[0]), cs[1..])
  }

  function KeyAttrs(k: Key): Attrs {
    map["PK" := S(k.pk), "SK" := S(k.sk)]
  }

  /** The item an accepted write leaves at its key; an update of a missing item creates it. */
  function Outcome(was: Option<Attrs>, w: Write): Option<Attrs> {
    match w
    case PutItem(item, _) => Some(item)
    case UpdateItem(key, changes, _) =>
      Some(ApplyChanges(if was.Some? then was.value else KeyAttrs(key), changes))
    case DeleteItem(_) => None
    case Check(_, _) => was
  }

  // ----- The table -----

  function Lookup(t: Table, k: Key): Option<Attrs> {
    if k in t then Some(t[k]) else None
  }

  function Place(t: Table, k: Key, after: Option<Attrs>): Table {
    if after.Some? then t[k := after.value] else t - {k}
  }

  predicate Admits(t: Table, w: Write) {
    Target(w).Some? && Judge(Lookup(t, Target(w).value), w) == Accepted
  }

  function Apply(t: Table, w: Write): Table
    requires Target(w).Some?
  {
    var k := Target(w).value;
    Place(t, k, Outcome(Lookup(t, k), w))
  }

  function ApplyAll(t: Table, ws: seq<Write>): Table
    requires forall w <- ws :: Target(w).Some?
    decreases |ws|
  {
    if ws == [] then t else ApplyAll(Apply(t, ws[0]), ws[1..])
  }

  predicate DistinctTargets(ws: seq<Write>) {
    forall i, j | 0 <= i < j < |ws| :: Target(ws[i]) != Target(ws[j])
  }

  /** All writes take effect together, on distinct items, or none does. */
  function Commit(t: Table, ws: seq<Write>): Option<Table> {
    if DistinctTargets(ws) && forall w <- ws :: Admits(t, w) then Some(ApplyAll(t, ws)) else None
  }

  /** Every stored item carries its own key. */
  ghost predicate SelfKeyed(t: Table) {
    forall k <- t :: KeyOf(t[k]) == Some(k)
  }

  // ----- Laws of updates -----

  /** An update leaves every attribute it does not name alone. */
  lemma {:induction false} ChangesLeave(item: Attrs, cs: seq<Change>, name: string)
    requires forall c <- cs :: c.name != name
    ensures name in ApplyChanges(item, cs) <==> name in item
    ensures name in item ==> ApplyChanges(item, cs)[name] == item[name]
    decreases |cs|
  {
    if cs == [] {
    } else {
      ChangesLeave(ApplyChange(item, cs[0]), cs[1..], name);
    }
  }

  /** An update sets every attribute it names as that one action says, whatever the order. */
  lemma {:induction false} ChangesApply(item: Attrs, cs: seq<Change>, i: nat)
    requires i < |cs| && DistinctNames(cs) && AddsToNumbers(item, cs)
    ensures var r := ApplyChanges(item, cs); var c := cs[i];
            c.name in r &&
            r[c.name] == match c
                         case SetAttr(_, v) => v
                         case AddNum(n, d) => N(if n in item then item[n].n + d else d)
    decreases |cs|
  {
    var next := ApplyChange(item, cs[0]);
    if i == 0 {
      forall c <- cs[1..] ensures c.name != cs[0].name {
        var j :| 0 <= j < |cs[1..]| && cs[1..][j] == c;
        assert cs[j + 1] == c;
      }
      ChangesLeave(next, cs[1..], cs[0].name);
    } else {
      forall c <- cs[1..] ensures c.name != cs[0].name {
        var j :| 0 <= j < |cs[1..]| && cs[1..][j] == c;
        assert cs[j + 1] == c;
      }
      ChangesApply(next, cs[1..], i - 1);
    }
  }

  lemma OutcomeKey(was: Option<Attrs>, w: Write, k: Key)
    requires Judge(was, w) == Accepted && Target(w) == Some(k)
    requires was.Some? ==> KeyOf(was.value) == Some(k)
    ensures Outcome(was, w).Some? ==> KeyOf(Outcome(was, w).value) == Some(k)
  {
    if w.UpdateItem? {
      var base := if was.Some? then was.value else KeyAttrs(k);
      ChangesLeave(base, w.changes, "PK");
      ChangesLeave(base, w.changes, "SK");
    }
  }
}
