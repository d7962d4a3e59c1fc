/** JSON values as the Android platform's org.json parser holds them, and the
    lenient accessors (optString, optInt, optDouble, optJSONArray) the
    view-models read result records with. Parsing itself is the library's
    and is not modelled: a response arrives already parsed. */
module Json {
  import opened Wrappers
  import Text

  /** A parsed JSON value. An integral literal is held as an Integer or a
      Long (JInt); any other number as a Double (JDouble), and so is an
      integral literal beyond the Long range: a JInt never holds a value
      outside the 64-bit range. For a double, an
      array and an object, `shown` is the text the library's toString gives
      it, which is all the view-models ever take from such a value. */
  datatype JValue =
    | JNull
    | JBool(b: bool)
    | JInt(i: int)
    | JDouble(d: real, shown: string)
    | JString(s: string)
    | JArray(items: seq<JValue>, shown: string)
    | JObject(fields: map<string, JValue>, shown: string)

  /** One JSON object: its keys and their values. */
  type Record = map<string, JValue>

  const IntMin: int := -0x8000_0000
  const IntMax: int := 0x7FFF_FFFF

  /** The values of Kotlin's Int, Java's 32-bit int. */
  predicate IsInt32(n: int) {
    IntMin <= n <= IntMax
  }

  /** Long.intValue: the low 32 bits of n, read as two's complement. */
  function LowBits32(n: int): (r: int)
    ensures IsInt32(r)
    ensures (r - n) % 0x1_0000_0000 == 0
    ensures IsInt32(n) ==> r == n
  {
    (n - IntMin) % 0x1_0000_0000 + IntMin
  }

  /** Java's narrowing of a large value to int saturates at the int bounds. */
  function Clamp32(n: int): (r: int)
    ensures IsInt32(r)
    ensures IsInt32(n) ==> r == n
    ensures n < IntMin ==> r == IntMin
    ensures n > IntMax ==> r == IntMax
  {
    if n < IntMin then IntMin else if n > IntMax then IntMax else n
  }

  /** Java's (int) cast of a double drops the fraction toward zero. */
  function TruncateToward0(d: real): (r: int)
    ensures d >= 0.0 ==> r as real <= d < r as real + 1.0
    ensures d < 0.0 ==> r as real - 1.0 < d <= r as real
  {
    if d >= 0.0 then d.Floor else -((-d).Floor)
  }

  /** optString(key, fallback): the fallback only when the key is missing;
      a present value is rendered as text, JSON null as "null" (Android's
      org.json does not treat null as missing here). */
  function OptString(rec: Record, key: string, fallback: string): (r: string)
    ensures key !in rec ==> r == fallback
    ensures key in rec && rec[key].JString? ==> r == rec[key].s
    ensures key in rec && rec[key].JInt? ==> r == Text.DecimalString(rec[key].i)
    ensures key in rec && (rec[key].JDouble? || rec[key].JArray? || rec[key].JObject?) ==> r == rec[key].shown
    ensures key in rec && rec[key].JInt? ==> Text.ParseDecimal(r) == Some(rec[key].i)
    ensures key in rec && rec[key].JNull? ==> r == "null"
    ensures key in rec && rec[key].JBool? ==> r == (if rec[key].b then "true" else "false")
  {
    if key !in rec then fallback
    else match rec[key]
      case JString(s) => s
      case JInt(i) => Text.DecimalRoundTrip(i); Text.DecimalString(i)
      case JBool(b) => if b then "true" else "false"
      case JNull => "null"
      case JDouble(_, shown) => shown
      case JArray(_, shown) => shown
      case JObject(_, shown) => shown
  }

  /** optInt(key, fallback): a number narrowed to Int, numeric text read as
      a double and then narrowed; the fallback for a missing key, JSON null,
      a boolean, an array, an object or text that is not a number. */
  function OptInt(rec: Record, key: string, fallback: int): (r: int)
    ensures IsInt32(fallback) ==> IsInt32(r)
    ensures key !in rec ==> r == fallback
    ensures key in rec && (rec[key].JNull? || rec[key].JBool? || rec[key].JArray? || rec[key].JObject?) ==> r == fallback
    ensures key in rec && rec[key].JInt? ==> IsInt32(r) && (r - rec[key].i) % 0x1_0000_0000 == 0
    ensures key in rec && rec[key].JDouble? ==> r == Clamp32(TruncateToward0(rec[key].d))
    ensures key in rec && rec[key].JString? ==>
              r == match Text.ParseDecimal(rec[key].s) case Some(n) => Clamp32(n) case None => fallback
  {
    if key !in rec then fallback
    else match rec[key]
      case JInt(i) => LowBits32(i)
      case JDouble(d, _) => Clamp32(TruncateToward0(d))
      case JString(s) =>
        (match Text.ParseDecimal(s)
         case Some(n) => Clamp32(n)
         case None => fallback)
      case _ => fallback
  }

  /** optDouble(key, fallback): a number as a double, numeric text read as
      a double; the fallback for a missing key and for any other value. */
  function OptDouble(rec: Record, key: string, fallback: real): (r: real)
    ensures key !in rec ==> r == fallback
    ensures key in rec && rec[key].JInt? ==> r == rec[key].i as real
    ensures key in rec && rec[key].JDouble? ==> r == rec[key].d
    ensures key in rec && rec[key].JString? ==>
              r == match Text.ParseDecimal(rec[key].s) case Some(n) => n as real case None => fallback
    ensures key in rec && (rec[key].JNull? || rec[key].JBool? || rec[key].JArray? || rec[key].JObject?) ==> r == fallback
  {
    if key !in rec then fallback
    else match rec[key]
      case JInt(i) => i as real
      case JDouble(d, _) => d
      case JString(s) =>
        (match Text.ParseDecimal(s)
         case Some(n) => n as real
         case None => fallback)
      case _ => fallback
  }

  /** optJSONArray(key): the elements when the value is an array, None
      otherwise (a missing key included). */
  function OptArray(rec: Record, key: string): (r: Option<seq<JValue>>)
    ensures r.Some? <==> key in rec && rec[key].JArray?
    ensures r.Some? ==> r.value == rec[key].items
  {
    if key in rec && rec[key].JArray? then Some(rec[key].items) else None
  }

  /** Nothing under the key: every accessor falls back. */
  lemma MissingKeyFallsBack(rec: Record, key: string, text: string, n: int, x: real)
    requires key !in rec
    ensures OptString(rec, key, text) == text
    ensures OptInt(rec, key, n) == n
    ensures OptDouble(rec, key, x) == x
    ensures OptArray(rec, key) == None
  {
  }

  /** An Int-sized JSON integer is read back exactly, and as text in its
      decimal form; a JSON string is read back exactly as text. */
  lemma TypedValuesReadBack(rec: Record, key: string, n: int, x: real)
    requires key in rec
    ensures rec[key].JInt? && IsInt32(rec[key].i) ==>
      OptInt(rec, key, n) == rec[key].i && OptDouble(rec, key, x) == rec[key].i as real
    ensures rec[key].JString? ==> OptString(rec, key, "") == rec[key].s
  {
  }

  /** Numeric text under an integer key is read as the number it spells. */
  lemma NumericTextReadsAsNumber(rec: Record, key: string, n: int, fallback: int)
    requires key in rec && rec[key] == JString(Text.DecimalString(n))
    requires IsInt32(n)
    ensures OptInt(rec, key, fallback) == n
  {
    Text.DecimalRoundTrip(n);
  }
}
