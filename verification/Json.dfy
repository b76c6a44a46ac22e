/** JSON documents as serde_json holds them after parsing. */
module Json {
  datatype Option<+T> = None | Some(value: T)

  datatype Json =
    | Null
    | Bool(flag: bool)
    | Number(text: string)
    | Text(text: string)
    | Array(items: seq<Json>)
    | Object(members: Members)

  type Members = map<string, Json>

  /** What a store holds of one kind in one tenant, by id. */
  type Docs = map<string, Json>

  function At<V>(m: map<string, V>, k: string): Option<V> {
    if k in m then Some(m[k]) else None
  }

  /** `ENTITY_META`: the members of an Entity that are not Attributes. */
  predicate IsMeta(k: string) {
    k in { "id", "type", "scope", "createdAt", "modifiedAt", "deletedAt", "expiresAt", "@context" }
  }

  /** `v.get(k)`: absent on anything that is not an object. */
  function Get(v: Json, k: string): Option<Json> {
    if v.Object? && k in v.members then Some(v.members[k]) else None
  }

  /** `v.get(k).and_then(Value::as_str)` */
  function GetText(v: Json, k: string): Option<string> {
    match Get(v, k)
    case Some(Text(s)) => Some(s)
    case _ => None
  }

  /** `v.get(k).and_then(Value::as_array)` */
  function GetArray(v: Json, k: string): Option<seq<Json>> {
    match Get(v, k)
    case Some(Array(a)) => Some(a)
    case _ => None
  }

  /** The strings of an array, in order: `iter().filter_map(Value::as_str)`. */
  function Texts(a: seq<Json>): seq<string> {
    if a == [] then []
    else
      var p := Texts(a[..|a| - 1]);
      match a[|a| - 1]
      case Text(s) => p + [s]
      case _ => p
  }

  lemma {:induction false} TextsHold(a: seq<Json>, s: string)
    ensures s in Texts(a) <==> Text(s) in a
  {
    if a != [] {
      TextsHold(a[..|a| - 1], s);
      assert a == a[..|a| - 1] + [a[|a| - 1]];
    }
  }

  // ---------- integers ----------

  predicate IsDigits(s: string) {
    forall i :: 0 <= i < |s| ==> '0' <= s[i] <= '9'
  }

  function DigitsValue(digits: string): nat
    requires IsDigits(digits)
  {
    if digits == [] then 0
    else 10 * DigitsValue(digits[..|digits| - 1]) + (digits[|digits| - 1] as nat - '0' as nat)
  }

  function Digits(n: nat): (r: string)
    ensures r != [] && IsDigits(r)
  {
    var d := [('0' as nat + n % 10) as char];
    if n < 10 then d else Digits(n / 10) + d
  }

  function Integer(n: int): Json {
    Number(if n < 0 then "-" + Digits(-n) else Digits(n))
  }

  /** The unbounded integer that a JSON number's text denotes, if it denotes one. */
  function AsInteger(text: string): Option<int> {
    var minus := text != [] && text[0] == '-';
    var digits := if minus then text[1..] else text;
    if !IsDigits(digits) then None
    else
      var n: int := DigitsValue(digits);
      Some(if minus then -n else n)
  }

  /** `and_then(Value::as_i64).unwrap_or(0)` */
  function Counter(v: Option<Json>): int {
    match v
    case Some(Number(t)) => (match AsInteger(t) case Some(n) => n case None => 0)
    case _ => 0
  }

  lemma {:induction false} DigitsReadBack(n: nat)
    ensures DigitsValue(Digits(n)) == n
  {
    if n >= 10 {
      DigitsReadBack(n / 10);
      var r := Digits(n);
      assert r[..|r| - 1] == Digits(n / 10);
    }
  }

  lemma CounterReadsBack(n: int)
    ensures Counter(Some(Integer(n))) == n
  {
    var digits := Digits(if n < 0 then -n else n);
    DigitsReadBack(if n < 0 then -n else n);
    assert digits[0] != '-';
    assert ("-" + digits)[1..] == digits;
  }

  // ---------- equal members ----------

  ghost predicate AgreeAt(a: Members, b: Members, k: string) {
    (k in a <==> k in b) && (k in a ==> a[k] == b[k])
  }

  lemma SameMembers(a: Members, b: Members)
    requires forall k :: AgreeAt(a, b, k)
    ensures a == b
  {
    forall k
      ensures k in a <==> k in b
      ensures k in a ==> a[k] == b[k]
    {
      assert AgreeAt(a, b, k);
    }
  }
}
