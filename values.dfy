/**
 * The Python values that reach the cache: decoded JSON request bodies and
 * provider payloads, plus `date` objects. Python's truthiness, `dict.get`,
 * `a or b`, and what the String columns keep of a value.
 */
module Values {
  import opened Wrappers
  import Decimals
  import Dates

  datatype Value =
    | Null
    | Bool(b: bool)
    | Int(i: int)
      /** A float, held as its Python `repr` (e.g. "1234.56", "1e-05"). */
    | Float(repr: string)
    | Str(s: string)
    | Arr(items: seq<Value>)
    | Obj(fields: map<string, Value>)
    | DateVal(date: Dates.Date)

  /** A JSON object: the `dict` payloads of the provider. */
  type Payload = map<string, Value>

  /** Python's `bool(v)`. */
  predicate Truthy(v: Value) {
    match v
    case Null => false
    case Bool(b) => b
    case Int(i) => i != 0
    case Float(t) => t != "0.0" && t != "-0.0"
    case Str(s) => s != ""
    case Arr(xs) => xs != []
    case Obj(m) => m != map[]
    case DateVal(_) => true
  }

  /** `d.get(k)`: a missing key reads as `None`. */
  function Get(d: Payload, k: string): (v: Value)
    ensures k in d ==> v == d[k]
    ensures k !in d ==> v == Null
  {
    if k in d then d[k] else Null
  }

  /** Python's `a or b`. */
  function Or(a: Value, b: Value): (v: Value)
    ensures Truthy(a) ==> v == a
    ensures !Truthy(a) ==> v == b
  {
    if Truthy(a) then a else b
  }

  /** What a nullable String column keeps of an assigned value: the text of
      a string, `NULL` for `None`. Other kinds of value are not strings the
      column can hold and are kept as `NULL` here. */
  function Text(v: Value): (r: Option<string>)
    ensures r.Some? <==> v.Str?
    ensures r.Some? ==> r.value == v.s
  {
    if v.Str? then Some(v.s) else None
  }

  /** A text value the option type maps back to a JSON value. */
  function OfText(t: Option<string>): (v: Value)
    ensures Text(v) == t
  {
    match t
    case None => Null
    case Some(s) => Str(s)
  }

  /** An identifier read from a payload: a non-empty string. `None` stands
      for Python's `not value` (missing, `None`, ""), and, by the model's
      choice, for a truthy value that is not a string. */
  function IdOf(v: Value): (r: Option<string>)
    ensures r.Some? <==> v.Str? && v.s != ""
    ensures r.Some? ==> r.value == v.s && Truthy(v)
  {
    if v.Str? && v.s != "" then Some(v.s) else None
  }

  /** `list(v)` followed by treating every element as a `dict`, as the
      handlers do with the provider's account and transaction lists.
      `None` is where Python raises: `list()` of a value that is not
      iterable, or an element that has no `.get` (the elements of a string
      and the keys of a dict are strings). */
  function AsPayloadList(v: Value): (r: Option<seq<Payload>>)
    ensures v.Arr? ==> (r.Some? <==> forall i :: 0 <= i < |v.items| ==> v.items[i].Obj?)
    ensures r.Some? && v.Arr? ==> |r.value| == |v.items| && forall i :: 0 <= i < |v.items| ==> r.value[i] == v.items[i].fields
    ensures !v.Arr? ==> (r.Some? <==> v == Str("") || v == Obj(map[]))
    ensures r.Some? && !v.Arr? ==> r.value == []
  {
    match v
    case Arr(xs) => Objects(xs)
    case Str(s) => if s == "" then Some([]) else None
    case Obj(m) => if m == map[] then Some([]) else None
    case _ => None
  }

  function Objects(xs: seq<Value>): (r: Option<seq<Payload>>)
    ensures r.Some? <==> forall i :: 0 <= i < |xs| ==> xs[i].Obj?
    ensures r.Some? ==> |r.value| == |xs| && forall i :: 0 <= i < |xs| ==> r.value[i] == xs[i].fields
  {
    if xs == [] then Some([])
    else if !xs[0].Obj? then None
    else
      match Objects(xs[1..])
      case None => None
      case Some(rest) => Some([xs[0].fields] + rest)
  }

  /** `_as_decimal`: `None` stays `None`; anything else goes through
      `Decimal(str(value))`, and a value that does not parse gives `None`. */
  function AsDecimal(v: Value): (r: Option<Decimals.Decimal>)
    ensures v == Null ==> r == None
    ensures v.Str? ==> r == Decimals.Parse(v.s)
    ensures v.Int? ==> r == Some(Decimals.Decimal(v.i, 0))
  {
    match v
    case Null => None
    case Bool(b) => Decimals.Parse(if b then "True" else "False")
    case Int(i) => Some(Decimals.Decimal(i, 0))
    case Float(t) => Decimals.Parse(t)
    case Str(s) => Decimals.Parse(s)
    case _ => None
  }

  /** `_as_date`: a falsy value gives `None`, a date passes through
      unchanged, a string goes through `date.fromisoformat`, and anything
      that cannot be parsed gives `None`. */
  function AsDate(v: Value): (r: Option<Dates.Date>)
    ensures !Truthy(v) ==> r == None
    ensures v.DateVal? ==> r == Some(v.date)
    ensures v.Str? ==> r == Dates.FromIsoFormat(v.s)
    ensures r.Some? && !v.DateVal? ==> Dates.Valid(r.value)
  {
    if !Truthy(v) then None
    else match v
      case DateVal(d) => Some(d)
      case Str(s) => Dates.FromIsoFormat(s)
      case _ => None
  }

  /** `_as_decimal` is exact: every decimal written as text comes back as
      the same representation, trailing zeros included. */
  lemma AsDecimalExact(d: Decimals.Decimal)
    ensures AsDecimal(Str(Decimals.Render(d))) == Some(d)
  {
    Decimals.ParseRender(d);
  }

  /** `_as_date` of a well-formed ISO date string is that date, and a date
      written back with `isoformat` is the string it came from. */
  lemma AsDateIso(d: Dates.Date)
    requires Dates.Valid(d)
    ensures AsDate(Str(Dates.IsoFormat(d))) == Some(d)
    ensures AsDate(DateVal(d)) == Some(d)
  {
    Dates.ParseIsoFormat(d);
  }

  /** The id test the repository applies (`not tx_id`) agrees with
      Python's truthiness on string values. */
  lemma IdOfTruthy(v: Value)
    requires v.Str? || v == Null
    ensures IdOf(v).Some? <==> Truthy(v)
  {
  }
}
