/**
  The filters blob of a stored analysis result. The JSON text itself is not
  modelled: a blob is either empty, text `json.loads` rejects, or a parsed
  object whose fields keep the insertion order of the Python dict.
*/
module Json {
  import opened Wrappers

  datatype JsonValue = JNull | JBool(b: bool) | JNum(n: int) | JStr(s: string)

  type Fields = seq<(string, JsonValue)>

  /** No key occurs twice. */
  predicate DistinctKeys(fs: Fields)
  {
    forall i, j :: 0 <= i < j < |fs| ==> fs[i].0 != fs[j].0
  }

  /** A Python dict, as `json.loads` builds it: each key once, in insertion order. */
  type Object = fs: Fields | DistinctKeys(fs) witness []

  datatype Blob = Empty | Malformed | Obj(fields: Object)

  /** A chat id as the chat registry hands it out: a string or an integer. */
  datatype ChatKey = KStr(s: string) | KNum(n: int)

  /** The JSON value `json.dumps` writes for a chat id. */
  function ChatKeyJson(k: ChatKey): (v: JsonValue)
    ensures v.JStr? <==> k.KStr?
    ensures k.KStr? ==> v == JStr(k.s)
    ensures k.KNum? ==> v == JNum(k.n)
  {
    match k
    case KStr(s) => JStr(s)
    case KNum(n) => JNum(n)
  }

  /** `dict.get(key)`: the value of the first field with that key. */
  function Get(fields: Fields, key: string): (r: Option<JsonValue>)
    ensures r.None? <==> forall i :: 0 <= i < |fields| ==> fields[i].0 != key
    ensures r.Some? ==> exists i :: 0 <= i < |fields| && fields[i] == (key, r.value)
  {
    if fields == [] then None
    else if fields[0].0 == key then Some(fields[0].1)
    else Get(fields[1..], key)
  }

  /** In a parsed object each key occurs once, so `dict.get` returns the value stored with it. */
  lemma {:induction false} GetInObject(fs: Object, i: nat)
    requires i < |fs|
    ensures Get(fs, fs[i].0) == Some(fs[i].1)
    decreases i
  {
    if i > 0 {
      assert fs[0].0 != fs[i].0;
      var rest: Object := fs[1..];
      assert rest[i - 1] == fs[i];
      GetInObject(rest, i - 1);
    }
  }

  function Digit(d: int): (c: char)
    requires 0 <= d < 10
    ensures '0' <= c <= '9'
  {
    "0123456789"[d]
  }

  /** Decimal digits of a natural number, most significant first. */
  function NatToDecimal(n: nat): (s: string)
    ensures |s| >= 1
    ensures forall i :: 0 <= i < |s| ==> '0' <= s[i] <= '9'
  {
    if n < 10 then [Digit(n)] else NatToDecimal(n / 10) + [Digit(n % 10)]
  }

  /** Python's `str(n)` for an `int`. */
  function IntToDecimal(n: int): (s: string)
    ensures |s| >= 1
    ensures (n < 0) <==> s[0] == '-'
  {
    if n < 0 then "-" + NatToDecimal(-n) else NatToDecimal(n)
  }

  /** Python's `str(chat_id)`. */
  function ChatKeyStr(k: ChatKey): string
  {
    match k
    case KStr(s) => s
    case KNum(n) => IntToDecimal(n)
  }

  /** Python's `str(v)` for the value `json.loads` produced (as an f-string renders it). */
  function PyStr(v: JsonValue): string
  {
    match v
    case JNull => "None"
    case JBool(b) => if b then "True" else "False"
    case JNum(n) => IntToDecimal(n)
    case JStr(s) => s
  }
}
