/**
 * The values `json.loads` produces, and the few Python operations the bridge applies to
 * them: `key in data`, `data[key]`, `data[key] = value` and `str(value)`.
 * A JSON object becomes a Python dict, modelled as an ordered sequence of key/value pairs
 * so that the position of an inserted key is explicit.
 */
module Json {
  import opened Wrappers
  import opened Text

  datatype JsonValue =
    | JNull
    | JBool(b: bool)
    | JNumber(n: int)
    | JString(s: string)
    | JArray(items: seq<JsonValue>)
    | JObject(members: seq<(string, JsonValue)>)

  type Members = seq<(string, JsonValue)>

  predicate HasKey(m: Members, k: string) {
    m != [] && (m[0].0 == k || HasKey(m[1..], k))
  }

  /** `d[k]` on a dict: the value stored under `k` (the first entry; a dict has only one). */
  function Lookup(m: Members, k: string): JsonValue
    requires HasKey(m, k)
  {
    if m[0].0 == k then m[0].1 else Lookup(m[1..], k)
  }

  /** The dict invariant: no key occurs twice. */
  ghost predicate UniqueKeys(m: Members) {
    forall i, j :: 0 <= i < j < |m| ==> m[i].0 != m[j].0
  }

  /** `d[k] = v` on a dict: overwrite in place when `k` is present, append otherwise. */
  function SetKey(m: Members, k: string, v: JsonValue): (r: Members)
    decreases m
  {
    if m == [] then [(k, v)]
    else if m[0].0 == k then [(k, v)] + m[1..]
    else [m[0]] + SetKey(m[1..], k, v)
  }

  lemma {:induction false} HasKeyIndex(m: Members, k: string)
    ensures HasKey(m, k) <==> exists i :: 0 <= i < |m| && m[i].0 == k
  {
    if m != [] {
      HasKeyIndex(m[1..], k);
      if exists i :: 0 <= i < |m[1..]| && m[1..][i].0 == k {
        var i :| 0 <= i < |m[1..]| && m[1..][i].0 == k;
        assert m[i + 1].0 == k;
      }
      if exists i :: 0 <= i < |m| && m[i].0 == k {
        var i :| 0 <= i < |m| && m[i].0 == k;
        if i > 0 { assert m[1..][i - 1].0 == k; }
      }
    }
  }

  /** Appending an entry adds exactly its key and leaves every earlier lookup unchanged. */
  lemma {:induction false} AppendEntry(m: Members, k: string, v: JsonValue, q: string)
    ensures HasKey(m + [(k, v)], q) <==> HasKey(m, q) || q == k
    ensures HasKey(m, q) ==> Lookup(m + [(k, v)], q) == Lookup(m, q)
    ensures !HasKey(m, q) && q == k ==> Lookup(m + [(k, v)], q) == v
  {
    if m == [] {
      assert m + [(k, v)] == [(k, v)];
    } else {
      assert (m + [(k, v)])[1..] == m[1..] + [(k, v)];
      AppendEntry(m[1..], k, v, q);
    }
  }

  /** Python's `key in data` for a string key; `None` where Python raises `TypeError`. */
  function PyContains(data: JsonValue, key: string): Option<bool> {
    match data
    case JObject(m) => Some(HasKey(m, key))
    case JArray(items) => Some(JString(key) in items)
    case JString(s) => Some(IsSubstring(key, s))
    case _ => None
  }

  /** Python's `data[key]` for a string key; `None` where Python raises `TypeError` or `KeyError`. */
  function PyGetItem(data: JsonValue, key: string): Option<JsonValue> {
    match data
    case JObject(m) => if HasKey(m, key) then Some(Lookup(m, key)) else None
    case _ => None
  }

  /** Python's `data[key] = value` for a string key; `None` where Python raises `TypeError`. */
  function PySetItem(data: JsonValue, key: string, value: JsonValue): Option<JsonValue> {
    match data
    case JObject(m) => Some(JObject(SetKey(m, key, value)))
    case _ => None
  }

  /** Python's `str(value)`: a string as it is, anything else as its `repr`. */
  function Str(v: JsonValue): string {
    match v
    case JString(s) => s
    case _ => Repr(v)
  }

  /** Python's `repr(value)` for the values `json.loads` yields. */
  function Repr(v: JsonValue): string
    decreases v
  {
    match v
    case JNull => "None"
    case JBool(b) => if b then "True" else "False"
    case JNumber(n) => IntToDecimal(n)
    case JString(s) => StringRepr(s)
    case JArray(items) => "[" + ItemsRepr(items) + "]"
    case JObject(_) => "{" + MembersRepr(v, 0) + "}"
  }

  /** The elements of a list, comma separated. */
  function ItemsRepr(items: seq<JsonValue>): string
    decreases items
  {
    if items == [] then ""
    else if |items| == 1 then Repr(items[0])
    else Repr(items[0]) + ", " + ItemsRepr(items[1..])
  }

  /** The entries of dict `obj` from the `i`-th on, each as `key: value`, comma separated. */
  function MembersRepr(obj: JsonValue, i: nat): string
    requires obj.JObject?
    decreases obj, |obj.members| - i
  {
    var m := obj.members;
    if i >= |m| then ""
    else
      assert m[i] in m;
      var entry := StringRepr(m[i].0) + ": " + Repr(m[i].1);
      if i == |m| - 1 then entry else entry + ", " + MembersRepr(obj, i + 1)
  }

  /** `repr` of a string: single quotes unless the text holds `'` and no `"`. */
  function StringRepr(s: string): string {
    var q := if '\'' in s && '"' !in s then '"' else '\'';
    [q] + Escaped(s, q) + [q]
  }

  function Escaped(s: string, q: char): string {
    if s == [] then "" else EscapeChar(s[0], q) + Escaped(s[1..], q)
  }

  function EscapeChar(c: char, q: char): string {
    if c == '\\' then "\\\\"
    else if c == q then ['\\', q]
    else if c == '\t' then "\\t"
    else if c == '\n' then "\\n"
    else if c == '\r' then "\\r"
    else if c < ' ' || ('\U{7F}' <= c <= '\U{A0}') || c == '\U{AD}' then "\\x" + Hex2(c as int)
    else [c]
  }

  function HexDigit(d: int): char
    requires 0 <= d < 16
  {
    "0123456789abcdef"[d]
  }

  function Hex2(n: int): string
    requires 0 <= n < 256
  {
    [HexDigit(n / 16), HexDigit(n % 16)]
  }

  function IntToDecimal(n: int): string {
    if n < 0 then "-" + NatToDecimal(-n) else NatToDecimal(n)
  }

  function NatToDecimal(n: nat): string {
    if n < 10 then ["0123456789"[n]] else NatToDecimal(n / 10) + ["0123456789"[n % 10]]
  }
}
