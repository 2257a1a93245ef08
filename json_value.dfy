/**
 * JSON values as the resume code handles them in JavaScript: the results of
 * `JSON.parse`, the elements of the resume's collections, and the few
 * JavaScript operators the code applies to them (`||`, array spread `[...x]`,
 * object spread `{...x, [k]: v}`, property access).
 */
module JsonValues {
  import opened Wrappers

  /** A JSON value. Numbers are integers; object members keep their insertion order. */
  datatype Json =
    | JNull
    | JBool(b: bool)
    | JNum(n: int)
    | JStr(s: string)
    | JArr(items: seq<Json>)
    | JObj(members: seq<(string, Json)>)

  /** JavaScript truthiness of a value that may be `undefined` (None). */
  predicate Truthy(v: Option<Json>)
  {
    match v
    case None => false
    case Some(JNull) => false
    case Some(JBool(b)) => b
    case Some(JNum(n)) => n != 0
    case Some(JStr(s)) => s != ""
    case Some(_) => true
  }

  /** The decimal text of a natural number, as JavaScript prints it (no leading zeros). */
  function NatText(n: nat): (r: string)
    ensures |r| >= 1 && (|r| == 1 <==> n < 10)
    ensures forall i :: 0 <= i < |r| ==> '0' <= r[i] <= '9'
    ensures n >= 10 ==> r[0] != '0'
  {
    if n < 10 then [DigitChar(n)] else NatText(n / 10) + [DigitChar(n % 10)]
  }

  function DigitChar(d: nat): (c: char)
    requires d < 10
    ensures '0' <= c <= '9'
  {
    ('0' as int + d) as char
  }

  /** The keys of an object, in order. */
  function Keys(ms: seq<(string, Json)>): (ks: seq<string>)
    ensures |ks| == |ms|
    ensures forall i :: 0 <= i < |ms| ==> ks[i] == ms[i].0
  {
    if ms == [] then [] else [ms[0].0] + Keys(ms[1..])
  }

  /** Property access `o[k]` on an object: the first member named k, or undefined. */
  function Lookup(ms: seq<(string, Json)>, k: string): Option<Json>
  {
    if ms == [] then None
    else if ms[0].0 == k then Some(ms[0].1)
    else Lookup(ms[1..], k)
  }

  lemma {:induction false} LookupKeys(ms: seq<(string, Json)>, k: string)
    ensures Lookup(ms, k).None? <==> k !in Keys(ms)
  {
    if ms != [] {
      LookupKeys(ms[1..], k);
      assert Keys(ms) == [ms[0].0] + Keys(ms[1..]);
    }
  }

  /**
   * `{...o, [k]: v}` on the members of o: a member named k takes the new value
   * where it stands, otherwise the member is appended at the end.
   */
  function SetMember(ms: seq<(string, Json)>, k: string, v: Json): (r: seq<(string, Json)>)
    ensures Lookup(r, k) == Some(v)
    ensures forall k' :: k' != k ==> Lookup(r, k') == Lookup(ms, k')
    ensures Keys(r) == if k in Keys(ms) then Keys(ms) else Keys(ms) + [k]
  {
    if ms == [] then [(k, v)]
    else if ms[0].0 == k then [(k, v)] + ms[1..]
    else
      var tail := SetMember(ms[1..], k, v);
      assert Keys(ms) == [ms[0].0] + Keys(ms[1..]);
      [ms[0]] + tail
  }

  /** The one-character strings of s, which is what `[...s]` makes of a string. */
  function Characters(s: string): (r: seq<Json>)
    ensures |r| == |s|
    ensures forall i :: 0 <= i < |s| ==> r[i] == JStr([s[i]])
  {
    seq(|s|, i requires 0 <= i < |s| => JStr([s[i]]))
  }

  /**
   * `[...(v || [])]`: a falsy value gives the empty array, an array its own
   * elements, a non-empty string its characters; spreading any other value
   * throws a TypeError (None).
   */
  function SpreadOrEmpty(v: Json): (r: Option<seq<Json>>)
    ensures !Truthy(Some(v)) ==> r == Some([])
    ensures v.JArr? ==> r == Some(v.items)
    ensures v.JStr? && v.s != "" ==> r == Some(Characters(v.s))
    ensures r.None? <==> (v.JBool? && v.b) || (v.JNum? && v.n != 0) || v.JObj?
  {
    if !Truthy(Some(v)) then Some([])
    else match v
      case JArr(items) => Some(items)
      case JStr(s) => Some(Characters(s))
      case _ => None
  }

  /**
   * The members of `{...v}`: an object's own members, an array's or a
   * string's elements under their decimal index, nothing for null, booleans
   * and numbers.
   */
  function ObjectSpread(v: Json): (r: seq<(string, Json)>)
    ensures v.JObj? ==> r == v.members
    ensures v.JStr? ==> |r| == |v.s| && forall i :: 0 <= i < |v.s| ==> r[i] == (NatText(i), JStr([v.s[i]]))
    ensures v.JArr? ==> |r| == |v.items| && forall i :: 0 <= i < |v.items| ==> r[i] == (NatText(i), v.items[i])
    ensures v.JNull? || v.JBool? || v.JNum? ==> r == []
  {
    match v
    case JObj(ms) => ms
    case JStr(s) => seq(|s|, i requires 0 <= i < |s| => (NatText(i), JStr([s[i]])))
    case JArr(xs) => seq(|xs|, i requires 0 <= i < |xs| => (NatText(i), xs[i]))
    case _ => []
  }

  /**
   * Property access `v.k` for a key that is not an array index or `length`
   * (the code only reads `name` and `title`): an object's member, undefined
   * on every other kind of value. None for the receiver null, where the
   * access throws a TypeError.
   */
  function Property(v: Json, k: string): (r: Option<Option<Json>>)
    requires k == "name" || k == "title"
    ensures r.None? <==> v.JNull?
    ensures v.JObj? ==> r == Some(Lookup(v.members, k))
  {
    match v
    case JNull => None
    case JObj(ms) => Some(Lookup(ms, k))
    case _ => Some(None)
  }
}
