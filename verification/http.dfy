/**
 * What the Flask handlers see and answer: the parsed JSON request body, Python truthiness,
 * the fit of a JSON value into a column of a given type, and the status codes returned.
 */
module Http {
  import opened Wrappers
  import JsonList

  /** The status codes the handlers return. */
  datatype Status = Ok200 | BadRequest400 | Unauthorized401 | ServerError500

  /** A JSON value as `request.get_json()` produces it (objects only occur as the body itself). */
  datatype JVal = JNull | JBool(b: bool) | JInt(i: int) | JStr(s: string) | JList(items: seq<JVal>)

  /** A request body that is a JSON object. */
  type Body = map<string, JVal>

  /** Python truthiness of a decoded JSON value. */
  predicate Truthy(v: JVal) {
    match v
    case JNull => false
    case JBool(b) => b
    case JInt(i) => i != 0
    case JStr(s) => s != []
    case JList(items) => items != []
  }

  /** `data.get(key, default)`. */
  function Get(body: Body, key: string, default: JVal): (v: JVal)
    ensures key in body ==> v == body[key]
    ensures key !in body ==> v == default
  {
    if key in body then body[key] else default
  }

  /**
   * The value a JSON value gives a column of some type, or `Mismatch` when storing it
   * fails at commit time (wrong type, or NULL in a NOT NULL column).
   */
  datatype Cell<+T> = Fits(value: T) | Mismatch

  /** A nullable text column. */
  function TextCell(v: JVal): (c: Cell<Option<string>>)
    ensures c == Fits(None) <==> v == JNull
    ensures forall s :: c == Fits(Some(s)) <==> v == JStr(s)
  {
    match v
    case JNull => Fits(None)
    case JStr(s) => Fits(Some(s))
    case _ => Mismatch
  }

  /** A NOT NULL text column: NULL violates the constraint. */
  function StrCell(v: JVal): (c: Cell<string>)
    ensures forall s :: c == Fits(s) <==> v == JStr(s)
  {
    match v
    case JStr(s) => Fits(s)
    case _ => Mismatch
  }

  /** A nullable boolean column. */
  function BoolCell(v: JVal): (c: Cell<Option<bool>>)
    ensures c == Fits(None) <==> v == JNull
    ensures forall b :: c == Fits(Some(b)) <==> v == JBool(b)
  {
    match v
    case JNull => Fits(None)
    case JBool(b) => Fits(Some(b))
    case _ => Mismatch
  }

  /** A nullable integer column. */
  function IntCell(v: JVal): (c: Cell<Option<int>>)
    ensures c == Fits(None) <==> v == JNull
    ensures forall i :: c == Fits(Some(i)) <==> v == JInt(i)
  {
    match v
    case JNull => Fits(None)
    case JInt(i) => Fits(Some(i))
    case _ => Mismatch
  }

  /** The strings of a JSON list whose every item is a string. */
  function Strings(items: seq<JVal>): (r: Option<seq<string>>)
    ensures r.Some? <==> forall k :: 0 <= k < |items| ==> items[k].JStr?
    ensures r.Some? ==> |r.value| == |items|
    ensures r.Some? ==> forall k :: 0 <= k < |items| ==> items[k] == JStr(r.value[k])
  {
    if |items| == 0 then Some([])
    else if !items[0].JStr? then None
    else match Strings(items[1..])
      case None => None
      case Some(rest) => Some([items[0].s] + rest)
  }

  /** A list-of-strings value, as `set_technologies` and its siblings accept it. */
  function StrListCell(v: JVal): (c: Cell<seq<string>>)
    ensures c.Fits? <==> v.JList? && Strings(v.items).Some?
  {
    match v
    case JList(items) => (match Strings(items) case Some(xs) => Fits(xs) case None => Mismatch)
    case _ => Mismatch
  }

  /**
   * The partial-update rule `data.get(key, old)`: an absent key keeps the previous value,
   * a present key must fit the column and then overwrites it.
   */
  function Patch<T(==)>(body: Body, key: string, conv: JVal -> Cell<T>, prev: T): (c: Cell<T>)
    ensures key !in body ==> c.Fits?
    ensures key in body ==> (c.Fits? <==> conv(body[key]).Fits?)
    ensures c.Fits? ==> Patched(body, key, conv, prev, c.value)
  {
    if key in body then conv(body[key]) else Fits(prev)
  }

  /**
   * A nullable column with a default, filled from `data.get(key, default)`: a present
   * non-null value must fit and is stored; an absent key or a JSON null gives the default.
   */
  predicate Defaulted<T(==)>(body: Body, key: string, conv: JVal -> Cell<Option<T>>, default: T, stored: Option<T>) {
    if key in body && body[key] != JNull then conv(body[key]) == Fits(stored) else stored == Some(default)
  }

  /** The value `next` is what the partial-update rule gives for `key` from `prev`. */
  predicate Patched<T(==)>(body: Body, key: string, conv: JVal -> Cell<T>, prev: T, next: T) {
    if key in body then conv(body[key]) == Fits(next) else next == prev
  }

  /** The decimal digits of a natural number. */
  function NatText(n: nat): (t: string)
    ensures |t| > 0 && forall k :: 0 <= k < |t| ==> '0' <= t[k] <= '9'
  {
    if n < 10 then [('0' as int + n) as char]
    else NatText(n / 10) + [('0' as int + n % 10) as char]
  }

  /** `str(i)` of a Python int: a minus sign for negative numbers, then the digits. */
  function IntText(i: int): (t: string)
    ensures |t| > 0 && (t[0] == '-' <==> i < 0)
  {
    if i < 0 then "-" + NatText(-i) else NatText(i)
  }

  /** The items' texts separated by ", ", as `json.dumps` lays out a list. */
  function Join(parts: seq<string>): string {
    if |parts| == 0 then []
    else if |parts| == 1 then parts[0]
    else parts[0] + ", " + Join(parts[1..])
  }

  /** `json.dumps` of any decoded JSON value. */
  function DumpsValue(v: JVal): (t: string)
    ensures |t| > 0
    ensures v.JList? <==> t[0] == '['
    ensures v.JStr? <==> t[0] == '"'
  {
    match v
    case JNull => "null"
    case JBool(b) => if b then "true" else "false"
    case JInt(i) => IntText(i)
    case JStr(s) => JsonList.Quote(s)
    case JList(items) => "[" + Join(seq(|items|, k requires 0 <= k < |items| => DumpsValue(items[k]))) + "]"
  }

  /** On a list of strings the general writer agrees with the list writer. */
  lemma {:induction false} DumpsValueStrings(items: seq<JVal>)
    requires Strings(items).Some?
    ensures DumpsValue(JList(items)) == JsonList.Dumps(Strings(items).value)
  {
    var xs := Strings(items).value;
    JoinQuotes(items, xs);
  }

  lemma {:induction false} JoinQuotes(items: seq<JVal>, xs: seq<string>)
    requires |items| == |xs| && forall k :: 0 <= k < |items| ==> items[k] == JStr(xs[k])
    ensures Join(seq(|items|, k requires 0 <= k < |items| => DumpsValue(items[k]))) == JsonList.EncodeItems(xs)
  {
    var parts := seq(|items|, k requires 0 <= k < |items| => DumpsValue(items[k]));
    if |items| > 1 {
      JoinQuotes(items[1..], xs[1..]);
      assert parts[1..] == seq(|items[1..]|, k requires 0 <= k < |items[1..]| => DumpsValue(items[1..][k]));
    }
  }
}
