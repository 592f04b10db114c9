/**
 * The dashboard's type-erased records. A collection item is a JavaScript object with a numeric
 * `id` and other properties; `Value` covers the JavaScript values those properties hold, so that
 * truthiness (`x || y`, `if (x)`), strict equality (`===`) and template-literal rendering can be
 * stated exactly.
 */
module Values {
  import opened Wrappers
  import Text

  datatype Value =
    | Undefined
    | Null
    | Bool(b: bool)
    | Num(n: int)
    | NaN
    | Str(s: string)

  /** JavaScript truthiness. */
  predicate Truthy(v: Value)
  {
    match v
    case Undefined => false
    case Null => false
    case Bool(b) => b
    case Num(n) => n != 0
    case NaN => false
    case Str(s) => s != ""
  }

  /** `a || b`. */
  function Or(a: Value, b: Value): (r: Value)
    ensures Truthy(a) ==> r == a
    ensures !Truthy(a) ==> r == b
  {
    if Truthy(a) then a else b
  }

  /** `${v}` inside a template literal. */
  function Show(v: Value): string
  {
    match v
    case Undefined => "undefined"
    case Null => "null"
    case Bool(b) => if b then "true" else "false"
    case Num(n) => Text.IntText(n)
    case NaN => "NaN"
    case Str(s) => s
  }

  /** `parseInt(text)` as a JavaScript value: a number, or `NaN`. */
  function ParseIntValue(text: string): Value
  {
    match Text.ParseInt(text)
    case Some(n) => Num(n)
    case None => NaN
  }

  /**
   * The number a relational comparison (`x >= v`) converts `v` to; `None` is `NaN`. Strings are
   * converted when empty or made of decimal digits only.
   */
  function ToNumber(v: Value): Option<int>
  {
    match v
    case Undefined => None
    case Null => Some(0)
    case Bool(b) => Some(if b then 1 else 0)
    case Num(n) => Some(n)
    case NaN => None
    case Str(s) => if Text.AllDigits(s) then Some(Text.DigitsValue(s)) else None
  }

  /** A stored record: its `id` and its other properties. */
  datatype Rec = Rec(id: int, fields: map<string, Value>)

  /** Data handed to a save: the form's properties, with an `id` only when editing. */
  datatype ItemData = ItemData(id: Option<int>, fields: map<string, Value>)

  /** `obj.name`: a missing property reads as `undefined`. */
  function Get(fields: map<string, Value>, name: string): Value
  {
    if name in fields then fields[name] else Undefined
  }

  function Field(r: Rec, name: string): Value
  {
    Get(r.fields, name)
  }

  /** `recs.find(r => r.id === id)`: the first record with that id, if any. */
  function FindById(recs: seq<Rec>, id: int): (r: Option<Rec>)
    ensures r.None? <==> forall i :: 0 <= i < |recs| ==> recs[i].id != id
    ensures r.Some? ==> exists i :: 0 <= i < |recs| && recs[i] == r.value && r.value.id == id &&
                          forall j :: 0 <= j < i ==> recs[j].id != id
  {
    if recs == [] then None
    else if recs[0].id == id then Some(recs[0])
    else
      var r := FindById(recs[1..], id);
      assert forall i :: 1 <= i < |recs| ==> recs[i] == recs[1..][i - 1];
      r
  }

  /**
   * `recs.find(r => r.id === ref)` where `ref` is a foreign-key property: strict equality
   * matches only a number equal to the id.
   */
  function FindByRef(recs: seq<Rec>, ref: Value): (r: Option<Rec>)
    ensures !ref.Num? ==> r.None?
    ensures ref.Num? ==> r == FindById(recs, ref.n)
  {
    if ref.Num? then FindById(recs, ref.n) else None
  }

  /** `found?.field || fallback`, rendered. */
  function LabelOr(found: Option<Rec>, field: string, fallback: string): string
  {
    if found.Some? && Truthy(Field(found.value, field)) then Show(Field(found.value, field)) else fallback
  }

  /** `recs.filter(r => r[field] === v)`, in collection order. */
  function Matching(recs: seq<Rec>, field: string, v: Value): (r: seq<Rec>)
    ensures |r| <= |recs|
    ensures forall x :: x in r ==> x in recs && Field(x, field) == v
  {
    if recs == [] then [] else Hit(recs[0], field, v) + Matching(recs[1..], field, v)
  }

  /** The record itself when its property equals `v`, else nothing. */
  function Hit(x: Rec, field: string, v: Value): (r: seq<Rec>)
    ensures r == [x] || r == []
  {
    if Field(x, field) == v then [x] else []
  }

  lemma {:induction false} MatchingAppend(a: seq<Rec>, b: seq<Rec>, field: string, v: Value)
    ensures Matching(a + b, field, v) == Matching(a, field, v) + Matching(b, field, v)
  {
    if a != [] {
      assert (a + b)[0] == a[0] && (a + b)[1..] == a[1..] + b;
      MatchingAppend(a[1..], b, field, v);
    } else {
      assert a + b == b;
    }
  }

  /** A single record is kept exactly when its property equals `v`. */
  lemma MatchingSingle(x: Rec, field: string, v: Value)
    ensures |Matching([x], field, v)| == if Field(x, field) == v then 1 else 0
  {
    assert [x][1..] == [];
  }

  /** A record is kept by the filter exactly when its property equals `v`. */
  lemma {:induction false} MatchingComplete(recs: seq<Rec>, field: string, v: Value, x: Rec)
    ensures x in Matching(recs, field, v) <==> x in recs && Field(x, field) == v
  {
    if recs != [] {
      MatchingComplete(recs[1..], field, v, x);
      assert recs == [recs[0]] + recs[1..];
    }
  }

  /** The filter is empty exactly when no record has that property value. */
  lemma MatchingEmpty(recs: seq<Rec>, field: string, v: Value)
    ensures Matching(recs, field, v) == [] <==> forall i :: 0 <= i < |recs| ==> Field(recs[i], field) != v
  {
    forall i | 0 <= i < |recs|
      ensures Field(recs[i], field) == v ==> Matching(recs, field, v) != []
    {
      MatchingComplete(recs, field, v, recs[i]);
    }
  }
}
