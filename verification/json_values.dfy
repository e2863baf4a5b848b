/** JSON values as the program sees them, and the JSON library as a parameter. */
module JsonValues {
  import opened Wrappers
  import opened Sse

  type TenBits = n: nat | n < 1024

  /** A code point of a Python str: a character, or half of a surrogate pair, which UTF-8 cannot write. */
  datatype Code = Char(c: char) | High(bits: TenBits) | Low(bits: TenBits)

  type Text = seq<Code>

  /** The characters of a text. */
  function Chars(t: Text): string {
    seq(|t|, i requires 0 <= i < |t| => if t[i].Char? then t[i].c else ' ')
  }

  function Str(s: string): (t: Text)
    ensures Chars(t) == s && NoSurrogates(t)
  {
    seq(|s|, i requires 0 <= i < |s| => Char(s[i]))
  }

  predicate NoSurrogates(t: Text) {
    forall i :: 0 <= i < |t| ==> t[i].Char?
  }

  /** No two halves that belong together stand side by side: reading JSON text would join them. */
  predicate NoPairs(t: Text) {
    forall i :: 0 <= i < |t| - 1 && t[i].High? ==> !t[i + 1].Low?
  }

  /** Floating-point numbers are known by their text and by whether they are zero. */
  datatype Json =
    | JNull
    | JBool(b: bool)
    | JInt(n: int)
    | JFloat(zero: bool, text: string)
    | JStr(s: Text)
    | JList(items: seq<Json>)
    | JObj(fields: Object)

  type Object = map<Text, Json>

  /** loads, and dumps as UTF-8 and escaped to ASCII, and the sum of a float and an integer; None where
      Python raises. */
  datatype Codec = Codec(loads: Bytes -> Option<Json>, dumps: Json -> Option<Bytes>,
                         escaped: Json -> Option<Bytes>, plus: (Json, int) -> Option<Json>)

  /** Every text in a value, keys among them, satisfies p. */
  predicate AllText(j: Json, p: Text -> bool) {
    match j
    case JStr(s) => p(s)
    case JList(items) => forall i :: 0 <= i < |items| ==> AllText(items[i], p)
    case JObj(fields) => forall k :: k in fields ==> p(k) && AllText(fields[k], p)
    case _ => true
  }

  /** What UTF-8 can write. */
  predicate Printable(j: Json) {
    AllText(j, NoSurrogates)
  }

  predicate Truthy(j: Json) {
    match j
    case JNull => false
    case JBool(b) => b
    case JInt(n) => n != 0
    case JFloat(zero, _) => !zero
    case JStr(s) => s != []
    case JList(items) => items != []
    case JObj(fields) => fields != map[]
  }

  function Get(o: Object, key: string): Json {
    if Str(key) in o then o[Str(key)] else JNull
  }

  function Put(o: Object, key: string, value: Json): Object {
    o[Str(key) := value]
  }

  /** The first truthy one of the named fields; the last one if none is. */
  function FirstTruthy(o: Object, keys: seq<string>): Json
    requires keys != []
  {
    if |keys| == 1 || Truthy(Get(o, keys[0])) then Get(o, keys[0]) else FirstTruthy(o, keys[1..])
  }

  lemma PutKeepsText(o: Object, key: string, value: Json, p: Text -> bool)
    requires AllText(JObj(o), p) && AllText(value, p) && p(Str(key))
    ensures AllText(JObj(Put(o, key, value)), p)
  {
  }
}
