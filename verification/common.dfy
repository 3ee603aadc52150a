/**
 Shared vocabulary of the model: optional values, request fields, document
 ids, and the few JavaScript value rules (truthiness, `||`, `??`, string
 length) that the handlers branch on.
 */
module Common {

  /** An optional value. A stored path holding `null` is `None`, as is a missing one. */
  datatype Option<+T> = None | Some(value: T)

  /**
   A request-body field, where JavaScript tells three cases apart: the key is
   missing (`undefined`), it holds `null`, or it holds a value.
   */
  datatype Field<+T> = Absent | Null | Given(value: T)

  /** A field as `??`, `||` and a schema default see it: `undefined` and `null` are both nullish. */
  function NonNull<T>(f: Field<T>): (r: Option<T>)
    ensures r.Some? <==> f.Given?
    ensures r.Some? ==> r.value == f.value
  {
    match f
    case Given(v) => Some(v)
    case _ => None
  }

  /**
   `if (f !== undefined) doc.path = f`: a missing key keeps the stored value,
   while `null` is written and clears the path.
   */
  function AssignDefined<T>(f: Field<T>, stored: Option<T>): (r: Option<T>)
    ensures f.Absent? ==> r == stored
    ensures !f.Absent? ==> r == NonNull(f)
  {
    match f
    case Absent => stored
    case Null => None
    case Given(v) => Some(v)
  }

  /** A document id: the 24 lower-case hexadecimal digits of an ObjectId's twelve bytes. */
  type Id = string

  /** JavaScript truthiness of a string-or-missing value: missing and "" are falsy. */
  predicate Truthy(o: Option<string>) {
    o.Some? && o.value != ""
  }

  /** JavaScript `o || fallback` on a string-or-missing value. */
  function OrElse(o: Option<string>, fallback: string): string {
    if Truthy(o) then o.value else fallback
  }

  /** JavaScript `o ?? fallback`: only a missing value falls back, "" is kept. */
  function Coalesce<T>(o: Option<T>, fallback: T): T {
    match o
    case Some(v) => v
    case None => fallback
  }

  // ---------------------------------------------------------------------------
  // JavaScript string length
  // ---------------------------------------------------------------------------

  /**
   The UTF-16 code units JavaScript stores for `s`: a character outside the
   Basic Multilingual Plane takes a surrogate pair.
   */
  function JsUnits(s: string): (r: seq<int>)
    ensures |r| >= |s|
    ensures forall i :: 0 <= i < |r| ==> 0 <= r[i] < 0x1_0000
    decreases |s|
  {
    if |s| == 0 then []
    else
      var n := s[0] as int;
      var head := if n < 0x1_0000 then [n] else [0xD800 + (n - 0x1_0000) / 0x400, 0xDC00 + (n - 0x1_0000) % 0x400];
      head + JsUnits(s[1..])
  }

  /** `s.length`: the number of UTF-16 code units. */
  function JsLength(s: string): nat {
    |JsUnits(s)|
  }

  /** `.length` counts characters exactly when every character lies in the Basic Multilingual Plane. */
  lemma {:induction false} JsLengthCountsChars(s: string)
    ensures JsLength(s) == |s| <==> forall i :: 0 <= i < |s| ==> (s[i] as int) < 0x1_0000
    decreases |s|
  {
    if |s| > 0 {
      JsLengthCountsChars(s[1..]);
      assert forall i :: 1 <= i < |s| ==> s[1..][i - 1] == s[i];
    }
  }

  // ---------------------------------------------------------------------------
  // ObjectId strings
  // ---------------------------------------------------------------------------

  predicate IsHexDigit(c: char) {
    ('0' <= c <= '9') || ('a' <= c <= 'f') || ('A' <= c <= 'F')
  }

  predicate IsLowerHexDigit(c: char) {
    ('0' <= c <= '9') || ('a' <= c <= 'f')
  }

  /** The string form `toString()` gives an ObjectId: 24 lower-case hexadecimal digits. */
  predicate IsObjectIdHex(s: string) {
    |s| == 24 && forall i :: 0 <= i < |s| ==> IsLowerHexDigit(s[i])
  }

  predicate IsHexString(s: string) {
    forall i :: 0 <= i < |s| ==> IsHexDigit(s[i])
  }

  function LowerHexDigit(c: char): (r: char)
    requires IsHexDigit(c)
    ensures IsLowerHexDigit(r)
    ensures IsLowerHexDigit(c) ==> r == c
  {
    if 'A' <= c <= 'F' then (c as int + 32) as char else c
  }

  function LowerHex(s: string): (r: string)
    requires IsHexString(s)
    ensures |r| == |s|
    ensures forall i :: 0 <= i < |s| ==> r[i] == LowerHexDigit(s[i])
  {
    seq(|s|, i requires 0 <= i < |s| => LowerHexDigit(s[i]))
  }

  function HexChar(n: nat): (r: char)
    requires n < 16
    ensures IsLowerHexDigit(r)
  {
    if n < 10 then ('0' as int + n) as char else ('a' as int + n - 10) as char
  }

  /** The hexadecimal digits of the low byte of each code unit, two per unit. */
  function HexOfLowBytes(units: seq<int>): (r: string)
    ensures |r| == 2 * |units|
    ensures forall i :: 0 <= i < |r| ==> IsLowerHexDigit(r[i])
    decreases |units|
  {
    if |units| == 0 then ""
    else
      var b := units[0] % 0x100;
      [HexChar(b / 16), HexChar(b % 16)] + HexOfLowBytes(units[1..])
  }

  /**
   Casting a string to an ObjectId, as the bson 1.x library of Mongoose 5 does:
   24 hexadecimal digits in either case name the twelve bytes they spell, and
   a string of exactly twelve UTF-16 code units names the twelve bytes formed
   by the low byte of each unit. Any other string cannot be cast.
   */
  function ObjectIdOf(s: string): (r: Option<Id>)
    ensures r.Some? <==> (|s| == 24 && IsHexString(s)) || JsLength(s) == 12
    ensures r.Some? ==> IsObjectIdHex(r.value)
  {
    if |s| == 24 && IsHexString(s) then Some(LowerHex(s))
    else if JsLength(s) == 12 then Some(HexOfLowBytes(JsUnits(s)))
    else None
  }

  /**
   `mongoose.Types.ObjectId.isValid` on a string. The same rule decides whether
   a query can cast the string; when it cannot, the query throws a CastError.
   */
  predicate ValidObjectId(s: string) {
    ObjectIdOf(s).Some?
  }

  /** `isValid` on a value that may be missing: a missing value is never valid. */
  predicate ValidObjectIdOpt(o: Option<string>) {
    o.Some? && ValidObjectId(o.value)
  }

  /** The ObjectId a query compares with when it is given the string `s`. */
  function CastId(s: string): (r: Id)
    requires ValidObjectId(s)
    ensures IsObjectIdHex(r)
  {
    ObjectIdOf(s).value
  }

  /** An id as `toString()` prints it casts back to the same ObjectId. */
  lemma CanonicalIdCastsToItself(id: Id)
    requires IsObjectIdHex(id)
    ensures ValidObjectId(id) && CastId(id) == id
  {
    assert IsHexString(id);
    assert LowerHex(id) == id;
  }

  /** Two hexadecimal spellings that differ only in letter case name the same ObjectId. */
  lemma CastIgnoresLetterCase(s: string, t: string)
    requires |s| == 24 && IsHexString(s) && |t| == |s| && IsHexString(t)
    requires forall i :: 0 <= i < |s| ==> LowerHexDigit(s[i]) == LowerHexDigit(t[i])
    ensures ValidObjectId(s) && ValidObjectId(t) && CastId(s) == CastId(t)
  {
    assert LowerHex(s) == LowerHex(t);
  }

  /** Any string of twelve BMP characters is a valid ObjectId. */
  lemma TwelveCharactersAreAnObjectId(s: string)
    requires |s| == 12 && forall i :: 0 <= i < |s| ==> (s[i] as int) < 0x1_0000
    ensures ValidObjectId(s)
  {
    JsLengthCountsChars(s);
  }
}
