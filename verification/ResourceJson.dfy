/** The JSON form in which the gateway prints LwM2M resources and reads the ones to be written. */
module ResourceJson {
  import opened Wrappers
  import opened Text

  datatype Error = IllegalArgument

  datatype Json =
    | JNull
    | JBool(b: bool)
    | JInt(i: int)
    | JDouble(x: real)
    | JString(s: string)
    | JArray(items: seq<Json>)
    | JObject(fields: map<string, Json>)

  datatype Type = NONE | STRING | INTEGER | UNSIGNED_INTEGER | FLOAT | BOOLEAN | OPAQUE | TIME | OBJLNK | CORELINK

  datatype Value =
    | Text(text: string)
    | Long(i: int)
    | ULong(n: int)
    | Double(x: real)
    | Bool(b: bool)
    | Bytes(bytes: seq<Byte>)
    | Date(ms: int)
    | ObjectLink(objectId: int, instanceId: int)
    | Links(format: string)

  datatype Resource = Resource(id: int, typ: Type, value: Value)

  /** Java's text form of doubles, which stays a parameter. */
  datatype Doubles = Doubles(show: real -> string, read: string -> Option<real>)

  // ---- Java integers

  const INT_MIN := -0x8000_0000
  const INT_MAX := 0x7fff_ffff
  const LONG_MIN := -0x8000_0000_0000_0000
  const LONG_MAX := 0x7fff_ffff_ffff_ffff
  const ULONG_MAX := 0xffff_ffff_ffff_ffff

  /** `longValue()`: the low 64 bits, as a signed number. */
  function ToLong(i: int): int {
    var low := i % 0x1_0000_0000_0000_0000;
    if low > LONG_MAX then low - 0x1_0000_0000_0000_0000 else low
  }

  /** `intValue()`: the low 32 bits, as a signed number. */
  function ToInt(i: int): int {
    var low := i % 0x1_0000_0000;
    if low > INT_MAX then low - 0x1_0000_0000 else low
  }

  /** A double to an int, towards zero; the caller has checked the range. */
  function Truncate(x: real): int {
    if x >= 0.0 then x.Floor else -((-x).Floor)
  }

  function ParseLong(s: string): Result<int, Error> {
    match ReadSigned(s)
    case Some(i) => if LONG_MIN <= i <= LONG_MAX then Ok(i) else Err(IllegalArgument)
    case None => Err(IllegalArgument)
  }

  function ParseULong(s: string): Result<int, Error> {
    match ReadSigned(s)
    case Some(i) => if 0 <= i <= ULONG_MAX then Ok(i) else Err(IllegalArgument)
    case None => Err(IllegalArgument)
  }

  // ---- hexadecimal

  type Byte = b: int | 0 <= b < 256

  function HexChar(d: nat): char
    requires d < 16
  {
    if d < 10 then DigitChar(d) else ('a' as int + d - 10) as char
  }

  function HexDigit(c: char): (r: Option<nat>)
    ensures r.Some? ==> r.value < 16
  {
    if IsDigit(c) then Some(c as int - '0' as int)
    else if 'a' <= c <= 'f' then Some(c as int - 'a' as int + 10)
    else if 'A' <= c <= 'F' then Some(c as int - 'A' as int + 10)
    else None
  }

  function Hex(bytes: seq<Byte>): string {
    if bytes == [] then []
    else [HexChar(bytes[0] / 16), HexChar(bytes[0] % 16)] + Hex(bytes[1..])
  }

  /** `Hex.decodeHex`; None stands for its exception. */
  function ReadHex(s: string): (r: Option<seq<Byte>>) {
    if s == [] then Some([])
    else if |s| == 1 then None
    else
      var hi, lo, rest := HexDigit(s[0]), HexDigit(s[1]), ReadHex(s[2..]);
      if hi.Some? && lo.Some? && rest.Some?
      then Some([16 * hi.value + lo.value] + rest.value) else None
  }

  lemma HexDigitReads(d: nat)
    requires d < 16
    ensures HexDigit(HexChar(d)) == Some(d)
  {
  }

  lemma {:induction false} HexReads(bytes: seq<Byte>)
    ensures ReadHex(Hex(bytes)) == Some(bytes)
  {
    if bytes != [] {
      HexReads(bytes[1..]);
      HexDigitReads(bytes[0] / 16);
      HexDigitReads(bytes[0] % 16);
      var s := Hex(bytes);
      assert s[0] == HexChar(bytes[0] / 16) && s[1] == HexChar(bytes[0] % 16) && s[2..] == Hex(bytes[1..]);
      assert ReadHex(s) == Some([bytes[0]] + bytes[1..]);
      assert [bytes[0]] + bytes[1..] == bytes;
    }
  }

  predicate IsHexChar(c: char) {
    '0' <= c <= '9' || 'a' <= c <= 'f' || 'A' <= c <= 'F'
  }

  /** Hexadecimal digits in either case, two for each byte. */
  predicate HexText(s: string) {
    |s| % 2 == 0 && forall i :: 0 <= i < |s| ==> IsHexChar(s[i])
  }

  lemma HexTextRest(s: string)
    requires |s| >= 2
    ensures HexText(s) <==> HexText(s[2..]) && IsHexChar(s[0]) && IsHexChar(s[1])
  {
    var rest := s[2..];
    assert forall i :: 0 <= i < |rest| ==> rest[i] == s[i + 2];
    if HexText(rest) && IsHexChar(s[0]) && IsHexChar(s[1]) {
      forall i | 0 <= i < |s| ensures IsHexChar(s[i]) {
        assert i >= 2 ==> s[i] == rest[i - 2];
      }
    }
  }

  lemma {:induction false} HexTextReads(s: string)
    ensures ReadHex(s).Some? <==> HexText(s)
  {
    if |s| >= 2 {
      HexTextReads(s[2..]);
      HexTextRest(s);
      assert ReadHex(s).Some? <==> HexDigit(s[0]).Some? && HexDigit(s[1]).Some? && ReadHex(s[2..]).Some?;
    }
  }

  /** The value of each hexadecimal digit, small or capital. */
  lemma HexDigitValues(d: nat)
    requires d < 16
    ensures HexDigit("0123456789abcdef"[d]) == Some(d) && HexDigit("0123456789ABCDEF"[d]) == Some(d)
  {
  }

  /** Each byte is its two digits, the high one first. */
  lemma {:induction false} HexAt(bytes: seq<Byte>, i: nat)
    requires i < |bytes|
    ensures |Hex(bytes)| == 2 * |bytes|
    ensures Hex(bytes)[2 * i] == "0123456789abcdef"[bytes[i] / 16] && Hex(bytes)[2 * i + 1] == "0123456789abcdef"[bytes[i] % 16]
  {
    HexLength(bytes);
    if i > 0 {
      HexAt(bytes[1..], i - 1);
      assert Hex(bytes)[2..] == Hex(bytes[1..]);
    }
  }

  lemma {:induction false} HexLength(bytes: seq<Byte>)
    ensures |Hex(bytes)| == 2 * |bytes|
  {
    if bytes != [] {
      HexLength(bytes[1..]);
    }
  }

  // ---- printing

  function TypeName(t: Type): string {
    match t
    case NONE => "NONE"
    case STRING => "STRING"
    case INTEGER => "INTEGER"
    case UNSIGNED_INTEGER => "UNSIGNED_INTEGER"
    case FLOAT => "FLOAT"
    case BOOLEAN => "BOOLEAN"
    case OPAQUE => "OPAQUE"
    case TIME => "TIME"
    case OBJLNK => "OBJLNK"
    case CORELINK => "CORELINK"
  }

  /** The value has the Java class that its type calls for. */
  predicate WellTyped(t: Type, v: Value) {
    match t
    case NONE => false
    case STRING => v.Text?
    case INTEGER => v.Long? && LONG_MIN <= v.i <= LONG_MAX
    case UNSIGNED_INTEGER => v.ULong? && 0 <= v.n <= ULONG_MAX
    case FLOAT => v.Double?
    case BOOLEAN => v.Bool?
    case OPAQUE => v.Bytes?
    case TIME => v.Date? && LONG_MIN <= v.ms <= LONG_MAX
    case OBJLNK => v.ObjectLink?
    case CORELINK => v.Links?
  }

  /** `convertValue`, followed by Jackson's writing of what it returns. */
  function ConvertValue(d: Doubles, t: Type, v: Value): Json
    requires WellTyped(t, v)
  {
    match t
    case OPAQUE => JString(Hex(v.bytes))
    case INTEGER => JString(Signed(v.i))
    case UNSIGNED_INTEGER => JString(Signed(v.n))
    case FLOAT => JString(d.show(v.x))
    case CORELINK => JString(v.format)
    case STRING => JString(v.text)
    case BOOLEAN => JBool(v.b)
    case TIME => JInt(v.ms)
    case OBJLNK => JObject(map["objectId" := JInt(v.objectId), "objectInstanceId" := JInt(v.instanceId)])
  }

  function Print(d: Doubles, r: Resource): Json
    requires WellTyped(r.typ, r.value)
  {
    JObject(map["id" := JInt(r.id), "kind" := JString("singleResource"), "type" := JString(TypeName(r.typ)),
                "value" := ConvertValue(d, r.typ, r.value)])
  }

  // ---- parsing

  function AsText(d: Doubles, j: Json): string {
    match j
    case JNull => "null"
    case JBool(b) => if b then "true" else "false"
    case JInt(i) => Signed(i)
    case JDouble(x) => d.show(x)
    case JString(s) => s
    case _ => ""
  }

  function Upper(s: string): string {
    seq(|s|, i requires 0 <= i < |s| => if 'a' <= s[i] <= 'z' then (s[i] as int - 32) as char else s[i])
  }

  function TypeOf(name: string): Option<Type> {
    match name
    case "NONE" => Some(NONE)
    case "STRING" => Some(STRING)
    case "INTEGER" => Some(INTEGER)
    case "UNSIGNED_INTEGER" => Some(UNSIGNED_INTEGER)
    case "FLOAT" => Some(FLOAT)
    case "BOOLEAN" => Some(BOOLEAN)
    case "OPAQUE" => Some(OPAQUE)
    case "TIME" => Some(TIME)
    case "OBJLNK" => Some(OBJLNK)
    case "CORELINK" => Some(CORELINK)
    case _ => None
  }

  function ParseValue(d: Doubles, j: Json, t: Type): Result<Value, Error> {
    match t
    case STRING => if j.JString? then Ok(Text(j.s)) else Err(IllegalArgument)
    case INTEGER =>
      if j.JInt? then Ok(Long(ToLong(j.i)))
      else
        var i := ParseLong(AsText(d, j));
        if i.Ok? then Ok(Long(i.value)) else Err(IllegalArgument)
    case UNSIGNED_INTEGER =>
      var n := ParseULong(AsText(d, j));
      if n.Ok? then Ok(ULong(n.value)) else Err(IllegalArgument)
    case FLOAT =>
      if j.JDouble? then Ok(Double(j.x))
      else if j.JInt? then Ok(Double(j.i as real))
      else
        var x := d.read(AsText(d, j));
        if x.Some? then Ok(Double(x.value)) else Err(IllegalArgument)
    case BOOLEAN =>
      if j.JBool? then Ok(Bool(j.b))
      else if j.JInt? && (ToInt(j.i) == 0 || ToInt(j.i) == 1) then Ok(Bool(ToInt(j.i) == 1))
      else Err(IllegalArgument)
    case OPAQUE =>
      var bytes := ReadHex(AsText(d, j));
      if bytes.Some? then Ok(Bytes(bytes.value)) else Err(IllegalArgument)
    case TIME => if j.JInt? then Ok(Date(ToLong(j.i))) else Err(IllegalArgument)
    case _ => Err(IllegalArgument)
  }

  function FieldId(j: Json): Option<int> {
    match j
    case JInt(i) => if INT_MIN <= i <= INT_MAX then Some(i) else None
    case JDouble(x) => if INT_MIN as real <= x <= INT_MAX as real then Some(Truncate(x)) else None
    case _ => None
  }

  function Parse(d: Doubles, body: Json): Result<Resource, Error> {
    if !body.JObject? then Err(IllegalArgument)
    else if "kind" in body.fields && body.fields["kind"] != JString("singleResource") then Err(IllegalArgument)
    else if "id" !in body.fields || "type" !in body.fields || "value" !in body.fields then Err(IllegalArgument)
    else
      var id := FieldId(body.fields["id"]);
      var t := TypeOf(Upper(AsText(d, body.fields["type"])));
      if id.None? || t.None? then Err(IllegalArgument)
      else
        var v := ParseValue(d, body.fields["value"], t.value);
        if v.Ok? then Ok(Resource(id.value, t.value, v.value)) else Err(IllegalArgument)
  }

  // ---- the round trip

  predicate Writable(t: Type) {
    t in {STRING, INTEGER, UNSIGNED_INTEGER, FLOAT, BOOLEAN, OPAQUE, TIME}
  }

  /** The text form of doubles loses nothing at `x`. */
  ghost predicate Faithful(d: Doubles, x: real) {
    d.read(d.show(x)) == Some(x)
  }

  lemma TypeNameReads(t: Type)
    ensures TypeOf(Upper(TypeName(t))) == Some(t)
  {
    assert Upper(TypeName(t)) == TypeName(t);
  }

  lemma LongStays(i: int)
    requires LONG_MIN <= i <= LONG_MAX
    ensures ToLong(i) == i
  {
  }

  lemma ValueReads(d: Doubles, t: Type, v: Value)
    requires Writable(t) && WellTyped(t, v)
    ensures ParseValue(d, ConvertValue(d, t, v), t) == Ok(v) <==> (t == FLOAT ==> Faithful(d, v.x))
  {
    match t
    case OPAQUE => HexReads(v.bytes);
    case INTEGER => SignedReads(v.i);
    case UNSIGNED_INTEGER => SignedReads(v.n);
    case TIME => LongStays(v.ms);
    case _ =>
  }

  /** Parsing undoes printing for every resource that can be written: always for text, both kinds
      of integers, booleans, bytes and times; for a FLOAT exactly where the double's own text form
      is faithful. The other types never come back. */
  lemma ParseUndoesPrint(d: Doubles, r: Resource)
    requires WellTyped(r.typ, r.value) && INT_MIN <= r.id <= INT_MAX
    ensures Parse(d, Print(d, r)) == Ok(r) <==> Writable(r.typ) && (r.typ == FLOAT ==> Faithful(d, r.value.x))
  {
    var body := Print(d, r);
    TypeNameReads(r.typ);
    assert AsText(d, body.fields["type"]) == TypeName(r.typ);
    if Writable(r.typ) {
      ValueReads(d, r.typ, r.value);
    }
  }

  lemma ParsedIsWellTyped(d: Doubles, body: Json)
    requires Parse(d, body).Ok?
    ensures var r := Parse(d, body).value;
            Writable(r.typ) && WellTyped(r.typ, r.value) && INT_MIN <= r.id <= INT_MAX
  {
    var id := body.fields["id"];
    if id.JDouble? {
      TruncateInRange(id.x);
    }
  }

  lemma TruncateInRange(x: real)
    requires INT_MIN as real <= x <= INT_MAX as real
    ensures INT_MIN <= Truncate(x) <= INT_MAX
  {
  }

  /** Whatever body the gateway accepts, printing what it read and reading that again changes
      nothing: every accepted spelling has one canonical form. */
  lemma AcceptedBodiesHaveCanonicalForm(d: Doubles, body: Json)
    requires Parse(d, body).Ok?
    requires Parse(d, body).value.typ == FLOAT ==> Faithful(d, Parse(d, body).value.value.x)
    ensures WellTyped(Parse(d, body).value.typ, Parse(d, body).value.value)
    ensures Parse(d, Print(d, Parse(d, body).value)) == Parse(d, body)
  {
    ParsedIsWellTyped(d, body);
    ParseUndoesPrint(d, Parse(d, body).value);
  }

  /** A whole number is accepted as BOOLEAN exactly when its low 32 bits say 0 or 1: the check
      narrows the number first, so 2^32 is accepted as false. */
  lemma BooleanAcceptsExactly(d: Doubles, i: int)
    ensures ParseValue(d, JInt(i), BOOLEAN).Ok? <==> i % 0x1_0000_0000 in {0, 1}
    ensures ParseValue(d, JInt(0x1_0000_0000), BOOLEAN) == Ok(Bool(false))
  {
  }

  // ---- what each spelling means

  /** A body with these three fields. */
  function Body(id: Json, name: string, value: Json): Json {
    JObject(map["id" := id, "type" := JString(name), "value" := value])
  }

  /** The body is read as this value under id 1. */
  predicate ReadsAs(d: Doubles, name: string, value: Json, t: Type, v: Value) {
    Parse(d, Body(JInt(1), name, value)) == Ok(Resource(1, t, v))
  }

  predicate IsRefused(d: Doubles, name: string, value: Json) {
    Parse(d, Body(JInt(1), name, value)) == Err(IllegalArgument)
  }

  /** The names of the types that can be written, in any case of letters. */
  lemma TypeNames()
    ensures TypeOf("STRING") == Some(STRING) && TypeOf("INTEGER") == Some(INTEGER)
    ensures TypeOf("UNSIGNED_INTEGER") == Some(UNSIGNED_INTEGER) && TypeOf("FLOAT") == Some(FLOAT)
    ensures TypeOf("BOOLEAN") == Some(BOOLEAN) && TypeOf("OPAQUE") == Some(OPAQUE) && TypeOf("TIME") == Some(TIME)
    ensures TypeOf("NONE") == Some(NONE) && TypeOf("OBJLNK") == Some(OBJLNK) && TypeOf("CORELINK") == Some(CORELINK)
  {
  }

  /** What a body with a known type name is read as depends on its value only. */
  lemma BodyReads(d: Doubles, id: int, name: string, value: Json, t: Type)
    requires INT_MIN <= id <= INT_MAX && TypeOf(Upper(name)) == Some(t)
    ensures Parse(d, Body(JInt(id), name, value)) ==
            match ParseValue(d, value, t)
            case Ok(v) => Ok(Resource(id, t, v))
            case Err(e) => Err(e)
  {
    var body := Body(JInt(id), name, value);
    assert body.fields["id"] == JInt(id) && AsText(d, body.fields["type"]) == name && body.fields["value"] == value;
    assert "kind" !in body.fields;
  }

  lemma NarrowedIsCongruent(i: int)
    ensures -0x8000_0000_0000_0000 <= ToLong(i) <= 0x7fff_ffff_ffff_ffff
    ensures (ToLong(i) - i) % 0x1_0000_0000_0000_0000 == 0
  {
    var m := 0x1_0000_0000_0000_0000;
    var low := i % m;
    assert i == m * (i / m) + low;
    var k := if low > LONG_MAX then -(i / m) - 1 else -(i / m);
    assert ToLong(i) - i == m * k;
    assert (m * k) % m == 0;
  }

  /** A whole number as INTEGER, spelled as a number: itself within 64 bits, else the number within 64
      bits that differs from it by a multiple of 2^64. */
  lemma IntegerFromNumber(d: Doubles, i: int) returns (v: int)
    ensures ReadsAs(d, "INTEGER", JInt(i), INTEGER, Long(v))
    ensures -0x8000_0000_0000_0000 <= v <= 0x7fff_ffff_ffff_ffff && (v - i) % 0x1_0000_0000_0000_0000 == 0
    ensures -0x8000_0000_0000_0000 <= i <= 0x7fff_ffff_ffff_ffff ==> v == i
  {
    TypeNames();
    TypeNameReads(INTEGER);
    BodyReads(d, 1, "INTEGER", JInt(i), INTEGER);
    NarrowedIsCongruent(i);
    v := ToLong(i);
  }

  /** A whole number as INTEGER, spelled in a string: itself within 64 bits, and refused beyond. */
  lemma IntegerFromText(d: Doubles, i: int)
    ensures if -0x8000_0000_0000_0000 <= i <= 0x7fff_ffff_ffff_ffff
            then ReadsAs(d, "INTEGER", JString(Signed(i)), INTEGER, Long(i))
            else IsRefused(d, "INTEGER", JString(Signed(i)))
  {
    TypeNameReads(INTEGER);
    BodyReads(d, 1, "INTEGER", JString(Signed(i)), INTEGER);
    SignedReads(i);
  }

  /** Within 64 bits, both spellings of an INTEGER give the same. */
  lemma SpellingsAgree(d: Doubles, i: int)
    requires -0x8000_0000_0000_0000 <= i <= 0x7fff_ffff_ffff_ffff
    ensures Parse(d, Body(JInt(1), "INTEGER", JInt(i))) == Parse(d, Body(JInt(1), "INTEGER", JString(Signed(i))))
  {
    var v := IntegerFromNumber(d, i);
    IntegerFromText(d, i);
  }

  /** An UNSIGNED_INTEGER in either spelling: itself within 64 bits, refused below 0 and beyond. */
  lemma UnsignedFromEither(d: Doubles, i: int)
    ensures forall spelling :: spelling in {JInt(i), JString(Signed(i))} ==>
              if 0 <= i <= 0xffff_ffff_ffff_ffff
              then ReadsAs(d, "UNSIGNED_INTEGER", spelling, UNSIGNED_INTEGER, ULong(i))
              else IsRefused(d, "UNSIGNED_INTEGER", spelling)
  {
    TypeNameReads(UNSIGNED_INTEGER);
    BodyReads(d, 1, "UNSIGNED_INTEGER", JInt(i), UNSIGNED_INTEGER);
    BodyReads(d, 1, "UNSIGNED_INTEGER", JString(Signed(i)), UNSIGNED_INTEGER);
    SignedReads(i);
  }

  /** No truth value, null, array or object is read as a whole number. */
  lemma NoNumberThere(d: Doubles, b: bool, items: seq<Json>, fields: map<string, Json>, name: string)
    requires name in {"INTEGER", "UNSIGNED_INTEGER"}
    ensures forall value :: value in {JBool(b), JNull, JArray(items), JObject(fields)} ==> IsRefused(d, name, value)
  {
    TypeNameReads(INTEGER);
    TypeNameReads(UNSIGNED_INTEGER);
    assert !IsDigit("true"[0]) && !IsDigit("false"[0]) && !IsDigit("null"[0]);
    NotANumber(if b then "true" else "false");
    NotANumber("null");
    NotANumber("");
    forall value | value in {JBool(b), JNull, JArray(items), JObject(fields)} ensures IsRefused(d, name, value) {
      BodyReads(d, 1, name, value, if name == "INTEGER" then INTEGER else UNSIGNED_INTEGER);
    }
  }

  /** A whole number as OPAQUE is taken by its decimal digits. */
  lemma OpaqueFromNumber(d: Doubles, i: int)
    ensures Parse(d, Body(JInt(1), "OPAQUE", JInt(i))) == Parse(d, Body(JInt(1), "OPAQUE", JString(Signed(i))))
  {
    TypeNameReads(OPAQUE);
    BodyReads(d, 1, "OPAQUE", JInt(i), OPAQUE);
    BodyReads(d, 1, "OPAQUE", JString(Signed(i)), OPAQUE);
  }

  /** A FLOAT from a number is that number, whole or not; from a string it is what Java reads there. */
  lemma FloatReads(d: Doubles, i: int, x: real, s: string)
    ensures ReadsAs(d, "FLOAT", JInt(i), FLOAT, Double(i as real))
    ensures ReadsAs(d, "FLOAT", JDouble(x), FLOAT, Double(x))
    ensures if d.read(s).Some? then ReadsAs(d, "FLOAT", JString(s), FLOAT, Double(d.read(s).value))
            else IsRefused(d, "FLOAT", JString(s))
  {
    TypeNameReads(FLOAT);
    BodyReads(d, 1, "FLOAT", JInt(i), FLOAT);
    BodyReads(d, 1, "FLOAT", JDouble(x), FLOAT);
    BodyReads(d, 1, "FLOAT", JString(s), FLOAT);
  }

  /** A BOOLEAN is true or false itself, or a whole number whose low 32 bits are 1 or 0. */
  lemma BooleanReads(d: Doubles, b: bool, i: int)
    ensures ReadsAs(d, "BOOLEAN", JBool(b), BOOLEAN, Bool(b))
    ensures ReadsAs(d, "BOOLEAN", JInt(i), BOOLEAN, Bool(true)) <==> i % 0x1_0000_0000 == 1
    ensures ReadsAs(d, "BOOLEAN", JInt(i), BOOLEAN, Bool(false)) <==> i % 0x1_0000_0000 == 0
    ensures IsRefused(d, "BOOLEAN", JInt(i)) <==> i % 0x1_0000_0000 >= 2
  {
    TypeNameReads(BOOLEAN);
    BodyReads(d, 1, "BOOLEAN", JBool(b), BOOLEAN);
    BodyReads(d, 1, "BOOLEAN", JInt(i), BOOLEAN);
  }

  /** A TIME is a whole number of milliseconds, taken modulo 2^64 as a signed number. */
  lemma TimeReads(d: Doubles, i: int) returns (v: int)
    ensures ReadsAs(d, "TIME", JInt(i), TIME, Date(v))
    ensures -0x8000_0000_0000_0000 <= v <= 0x7fff_ffff_ffff_ffff && (v - i) % 0x1_0000_0000_0000_0000 == 0
    ensures -0x8000_0000_0000_0000 <= i <= 0x7fff_ffff_ffff_ffff ==> v == i
  {
    TypeNameReads(TIME);
    BodyReads(d, 1, "TIME", JInt(i), TIME);
    NarrowedIsCongruent(i);
    v := ToLong(i);
  }

  /** An OPAQUE is hexadecimal text of whole bytes, with digits in either case. */
  lemma OpaqueReads(d: Doubles, s: string)
    ensures if HexText(s) then ReadHex(s).Some? && ReadsAs(d, "OPAQUE", JString(s), OPAQUE, Bytes(ReadHex(s).value))
            else IsRefused(d, "OPAQUE", JString(s))
  {
    TypeNameReads(OPAQUE);
    BodyReads(d, 1, "OPAQUE", JString(s), OPAQUE);
    HexTextReads(s);
  }

  /** A STRING is a string, and no number and no boolean. */
  lemma StringReads(d: Doubles, s: string, i: int, b: bool)
    ensures ReadsAs(d, "STRING", JString(s), STRING, Text(s))
    ensures IsRefused(d, "STRING", JInt(i)) && IsRefused(d, "STRING", JBool(b))
  {
    TypeNameReads(STRING);
    BodyReads(d, 1, "STRING", JString(s), STRING);
    BodyReads(d, 1, "STRING", JInt(i), STRING);
    BodyReads(d, 1, "STRING", JBool(b), STRING);
  }

  /** TIME and BOOLEAN take no text. */
  lemma TextRefused(d: Doubles, s: string)
    ensures IsRefused(d, "TIME", JString(s)) && IsRefused(d, "BOOLEAN", JString(s))
  {
    TypeNameReads(TIME);
    TypeNameReads(BOOLEAN);
    BodyReads(d, 1, "TIME", JString(s), TIME);
    BodyReads(d, 1, "BOOLEAN", JString(s), BOOLEAN);
  }

  /** The types without a written form are refused whatever the value. */
  lemma UnwritableRefused(d: Doubles, value: Json)
    ensures IsRefused(d, "NONE", value) && IsRefused(d, "OBJLNK", value) && IsRefused(d, "CORELINK", value)
  {
    TypeNameReads(NONE);
    TypeNameReads(OBJLNK);
    TypeNameReads(CORELINK);
    BodyReads(d, 1, "NONE", value, NONE);
    BodyReads(d, 1, "OBJLNK", value, OBJLNK);
    BodyReads(d, 1, "CORELINK", value, CORELINK);
  }

  /** A body is refused unless it is an object with an id, a type and a value, of the kind
      "singleResource" if it names a kind. */
  lemma MalformedRefused(d: Doubles, body: Json)
    ensures !body.JObject? ==> Parse(d, body) == Err(IllegalArgument)
    ensures body.JObject? && !("id" in body.fields && "type" in body.fields && "value" in body.fields) ==>
              Parse(d, body) == Err(IllegalArgument)
    ensures body.JObject? && "kind" in body.fields && body.fields["kind"] != JString("singleResource") ==>
              Parse(d, body) == Err(IllegalArgument)
  {
  }

  /** An id is a whole number within 32 bits, or a fraction within that range with what is behind the
      point cut off; anything else is refused. */
  lemma IdReads(d: Doubles, i: int, x: real, s: string)
    ensures if -0x8000_0000 <= i <= 0x7fff_ffff
            then Parse(d, Body(JInt(i), "STRING", JString(s))) == Ok(Resource(i, STRING, Text(s)))
            else Parse(d, Body(JInt(i), "STRING", JString(s))) == Err(IllegalArgument)
    ensures x < -2147483648.0 || x > 2147483647.0 ==> Parse(d, Body(JDouble(x), "STRING", JString(s))) == Err(IllegalArgument)
    ensures -2147483648.0 <= x <= 2147483647.0 ==>
              var r := Parse(d, Body(JDouble(x), "STRING", JString(s)));
              && r.Ok? && r.value.typ == STRING && r.value.value == Text(s)
              && (x >= 0.0 ==> r.value.id as real <= x < r.value.id as real + 1.0)
              && (x < 0.0 ==> r.value.id as real - 1.0 < x <= r.value.id as real)
    ensures Parse(d, Body(JString(s), "STRING", JString(s))) == Err(IllegalArgument)
  {
    TypeNameReads(STRING);
    if -0x8000_0000 <= i <= 0x7fff_ffff {
      BodyReads(d, i, "STRING", JString(s), STRING);
    }
    var body := Body(JDouble(x), "STRING", JString(s));
    assert body.fields["id"] == JDouble(x) && body.fields["value"] == JString(s) && AsText(d, body.fields["type"]) == "STRING";
  }

  // ---- what is printed

  /** A resource is printed as its id, the kind, the name of its type, and its value: both kinds of
      integers and doubles as text, times and booleans as such. */
  lemma PrintedForm(d: Doubles, r: Resource)
    requires WellTyped(r.typ, r.value)
    ensures var body := Print(d, r);
            && body.JObject? && body.fields.Keys == {"id", "kind", "type", "value"}
            && body.fields["id"] == JInt(r.id) && body.fields["kind"] == JString("singleResource")
            && body.fields["type"].JString? && TypeOf(body.fields["type"].s) == Some(r.typ)
            && body.fields["value"] ==
               match r.value
               case Text(text) => JString(text)
               case Long(i) => JString(Signed(i))
               case ULong(n) => JString(Signed(n))
               case Double(x) => JString(d.show(x))
               case Bool(b) => JBool(b)
               case Bytes(bytes) => JString(Hex(bytes))
               case Date(ms) => JInt(ms)
               case ObjectLink(o, i) => JObject(map["objectId" := JInt(o), "objectInstanceId" := JInt(i)])
               case Links(format) => JString(format)
  {
    TypeNameReads(r.typ);
    assert Upper(TypeName(r.typ)) == TypeName(r.typ);
  }

  // ---- multiple instances

  /** An instance of a multi-instance resource. */
  datatype Instance = Instance(id: nat, value: Value)

  predicate InstancesValid(t: Type, entries: seq<Instance>) {
    && (forall i :: 0 <= i < |entries| ==> WellTyped(t, entries[i].value))
    && (forall i, j :: 0 <= i < j < |entries| ==> entries[i].id != entries[j].id)
  }

  predicate KeyUsed(entries: seq<Instance>, key: string) {
    exists i :: 0 <= i < |entries| && key == Decimal(entries[i].id)
  }

  lemma KeyIsFree(entries: seq<Instance>, e: Instance)
    requires forall i :: 0 <= i < |entries| ==> entries[i].id != e.id
    ensures !KeyUsed(entries, Decimal(e.id))
  {
    forall i | 0 <= i < |entries| ensures Decimal(entries[i].id) != Decimal(e.id) {
      DecimalInjective(entries[i].id, e.id);
    }
  }

  lemma KeyUsedOneMore(entries: seq<Instance>, e: Instance, key: string)
    ensures KeyUsed(entries + [e], key) <==> KeyUsed(entries, key) || key == Decimal(e.id)
  {
    if KeyUsed(entries, key) {
      var i :| 0 <= i < |entries| && key == Decimal(entries[i].id);
      assert (entries + [e])[i] == entries[i];
    }
    assert (entries + [e])[|entries|] == e;
  }

  /** `values` has one entry for each instance, under the instance's decimal id, and no other. */
  ghost predicate Holds(d: Doubles, t: Type, values: map<string, Json>, entries: seq<Instance>)
    requires InstancesValid(t, entries)
  {
    && |values| == |entries|
    && (forall key :: key in values <==> KeyUsed(entries, key))
    && (forall i :: 0 <= i < |entries| ==>
          Decimal(entries[i].id) in values && values[Decimal(entries[i].id)] == ConvertValue(d, t, entries[i].value))
  }

  lemma HoldsOneMore(d: Doubles, t: Type, values: map<string, Json>, entries: seq<Instance>, e: Instance)
    requires InstancesValid(t, entries + [e]) && InstancesValid(t, entries) && WellTyped(t, e.value)
    requires Holds(d, t, values, entries)
    ensures Holds(d, t, values[Decimal(e.id) := ConvertValue(d, t, e.value)], entries + [e])
  {
    var key, all := Decimal(e.id), entries + [e];
    var after := values[key := ConvertValue(d, t, e.value)];
    forall i | 0 <= i < |entries| ensures entries[i].id != e.id {
      assert all[i] == entries[i] && all[|entries|] == e;
    }
    KeyIsFree(entries, e);
    forall k ensures k in after <==> KeyUsed(all, k) {
      KeyUsedOneMore(entries, e, k);
    }
    forall i | 0 <= i < |all| ensures Decimal(all[i].id) in after && after[Decimal(all[i].id)] == ConvertValue(d, t, all[i].value) {
      if i < |entries| {
        assert all[i] == entries[i];
        var k := Decimal(entries[i].id);
        assert KeyUsed(entries, k) && k != key && after[k] == values[k];
      } else {
        assert all[i] == e && after[key] == ConvertValue(d, t, e.value);
      }
    }
  }

  lemma InstancesPrefix(t: Type, entries: seq<Instance>, n: nat)
    requires InstancesValid(t, entries) && n <= |entries|
    ensures InstancesValid(t, entries[..n])
  {
  }

  lemma HoldsStep(d: Doubles, t: Type, values: map<string, Json>, entries: seq<Instance>, n: nat)
    requires InstancesValid(t, entries) && n < |entries| && InstancesValid(t, entries[..n]) && InstancesValid(t, entries[..n + 1])
    requires Holds(d, t, values, entries[..n])
    ensures Holds(d, t, values[Decimal(entries[n].id) := ConvertValue(d, t, entries[n].value)], entries[..n + 1])
  {
    assert entries[..n + 1] == entries[..n] + [entries[n]];
    HoldsOneMore(d, t, values, entries[..n], entries[n]);
  }

  /** The `values` map of a multi-instance resource: each instance under its own key, none lost. */
  method PrintInstances(d: Doubles, t: Type, entries: seq<Instance>) returns (values: map<string, Json>)
    requires InstancesValid(t, entries)
    ensures Holds(d, t, values, entries)
  {
    values := map[];
    for i := 0 to |entries|
      invariant InstancesValid(t, entries[..i]) && Holds(d, t, values, entries[..i])
    {
      InstancesPrefix(t, entries, i + 1);
      HoldsStep(d, t, values, entries, i);
      values := values[Decimal(entries[i].id) := ConvertValue(d, t, entries[i].value)];
    }
    assert entries[..|entries|] == entries;
  }
}
