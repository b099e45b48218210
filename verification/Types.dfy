/** Astarte data and its conversion to and from BSON (src/types/mod.rs, src/types/de.rs). */
module Types {
  import opened Basics

  type I32 = n: int | -0x8000_0000 <= n < 0x8000_0000
  type I64 = n: int | -0x8000_0000_0000_0000 <= n < 0x8000_0000_0000_0000

  /** The bits of an IEEE 754 double. */
  type F64 = n: int | 0 <= n < 0x1_0000_0000_0000_0000

  function Exponent(f: F64): nat {
    f / 0x10_0000_0000_0000 % 0x800
  }

  function Mantissa(f: F64): nat {
    f % 0x10_0000_0000_0000
  }

  predicate IsNanOrInfinite(f: F64) {
    Exponent(f) == 0x7FF
  }

  predicate IsSubnormal(f: F64) {
    Exponent(f) == 0 && Mantissa(f) != 0
  }

  /** What the `Double` newtype admits. */
  type Double = f: F64 | !IsNanOrInfinite(f) && !IsSubnormal(f) witness 0

  /** Nanoseconds since the epoch, in the range of a `chrono::DateTime<Utc>`. */
  const MIN_UTC: int := -8_334_601_228_800 * 1_000_000_000
  const MAX_UTC: int := 8_210_266_876_800 * 1_000_000_000 - 1
  type Timestamp = n: int | MIN_UTC <= n <= MAX_UTC witness 0

  datatype MappingType =
    | TDouble | TInteger | TBoolean | TLongInteger | TString | TBinaryBlob | TDateTime
    | TDoubleArray | TIntegerArray | TBooleanArray | TLongIntegerArray
    | TStringArray | TBinaryBlobArray | TDateTimeArray

  datatype AstarteData =
    | DDouble(double: Double)
    | DInteger(integer: I32)
    | DBoolean(boolean: bool)
    | DLongInteger(longInteger: I64)
    | DString(str: string)
    | DBinaryBlob(blob: seq<Byte>)
    | DDateTime(dateTime: Timestamp)
    | DDoubleArray(doubles: seq<Double>)
    | DIntegerArray(integers: seq<I32>)
    | DBooleanArray(booleans: seq<bool>)
    | DLongIntegerArray(longIntegers: seq<I64>)
    | DStringArray(strings: seq<string>)
    | DBinaryBlobArray(blobs: seq<seq<Byte>>)
    | DDateTimeArray(dateTimes: seq<Timestamp>)

  datatype TypeError = Float | FromBsonArray | InvalidType

  function TypeOf(d: AstarteData): MappingType {
    match d
    case DDouble(_) => TDouble
    case DInteger(_) => TInteger
    case DBoolean(_) => TBoolean
    case DLongInteger(_) => TLongInteger
    case DString(_) => TString
    case DBinaryBlob(_) => TBinaryBlob
    case DDateTime(_) => TDateTime
    case DDoubleArray(_) => TDoubleArray
    case DIntegerArray(_) => TIntegerArray
    case DBooleanArray(_) => TBooleanArray
    case DLongIntegerArray(_) => TLongIntegerArray
    case DStringArray(_) => TStringArray
    case DBinaryBlobArray(_) => TBinaryBlobArray
    case DDateTimeArray(_) => TDateTimeArray
  }

  /** An integer is also accepted where a long integer or a double is expected. */
  predicate EqMappingType(d: AstarteData, m: MappingType) {
    (d.DInteger? && (m == TLongInteger || m == TDouble)) || TypeOf(d) == m
  }

  datatype Bson =
    | Double(f: F64)
    | Int32(i: I32)
    | Int64(l: I64)
    | Boolean(b: bool)
    | String(s: string)
    | Binary(bytes: seq<Byte>, subtype: Byte)
    | DateTime(millis: I64)
    | Array(items: seq<Bson>)
    | Other

  const GENERIC: Byte := 0

  function Map<A, B>(f: A -> B, s: seq<A>): (r: seq<B>)
    ensures |r| == |s| && forall i :: 0 <= i < |s| ==> r[i] == f(s[i])
  {
    seq(|s|, i requires 0 <= i < |s| => f(s[i]))
  }

  // ---- Encoding -----------------------------------------------------------------------------

  /** `bson::DateTime` counts whole milliseconds, rounded down. */
  function ToMillis(t: Timestamp): I64 {
    t / MILLI
  }

  function ToBson(d: AstarteData): Bson {
    match d
    case DDouble(x) => Double(x)
    case DInteger(x) => Int32(x)
    case DBoolean(x) => Boolean(x)
    case DLongInteger(x) => Int64(x)
    case DString(x) => String(x)
    case DBinaryBlob(x) => Binary(x, GENERIC)
    case DDateTime(x) => DateTime(ToMillis(x))
    case DDoubleArray(xs) => Array(Map((x: Double) => Double(x), xs))
    case DIntegerArray(xs) => Array(Map(x => Int32(x), xs))
    case DBooleanArray(xs) => Array(Map(x => Boolean(x), xs))
    case DLongIntegerArray(xs) => Array(Map(x => Int64(x), xs))
    case DStringArray(xs) => Array(Map(x => String(x), xs))
    case DBinaryBlobArray(xs) => Array(Map(x => Binary(x, GENERIC), xs))
    case DDateTimeArray(xs) => Array(Map(x => DateTime(ToMillis(x)), xs))
  }

  // ---- Decoding -----------------------------------------------------------------------------

  function AsDouble(f: F64): Result<Double, TypeError> {
    if IsNanOrInfinite(f) || IsSubnormal(f) then Err(Float) else Ok(f)
  }

  function AsF64(b: Bson): Option<F64> {
    if b.Double? then Some(b.f) else None
  }

  function AsI32(b: Bson): Option<I32> {
    if b.Int32? then Some(b.i) else None
  }

  function AsBool(b: Bson): Option<bool> {
    if b.Boolean? then Some(b.b) else None
  }

  /** Astarte may send a long integer as 32 bits. */
  function AsI64(b: Bson): Option<I64> {
    if b.Int64? then Some(b.l) else if b.Int32? then Some(b.i) else None
  }

  function AsString(b: Bson): Option<string> {
    if b.String? then Some(b.s) else None
  }

  function AsBytes(b: Bson): Option<seq<Byte>> {
    if b.Binary? then Some(b.bytes) else None
  }

  /** `to_chrono`: milliseconds out of the range of chrono are clamped. */
  function AsTimestamp(b: Bson): Option<Timestamp> {
    if !b.DateTime? then None
    else if b.millis * MILLI < MIN_UTC then Some(MIN_UTC)
    else if b.millis * MILLI > MAX_UTC then Some(MAX_UTC)
    else Some(b.millis * MILLI)
  }

  function OkOr<T>(o: Option<T>, e: TypeError): Result<T, TypeError> {
    match o
    case Some(x) => Ok(x)
    case None => Err(e)
  }

  function Then<A>(r: Result<A, TypeError>, f: A -> AstarteData): Result<AstarteData, TypeError> {
    match r
    case Ok(x) => Ok(f(x))
    case Err(e) => Err(e)
  }

  /** `bson_array`: every item converted, or an error if one of them does not convert. */
  function BsonArray<T>(a: seq<Bson>, f: Bson -> Option<T>): (r: Result<seq<T>, TypeError>)
    ensures r.Ok? <==> forall i :: 0 <= i < |a| ==> f(a[i]).Some?
    ensures r.Ok? ==> |r.value| == |a| && forall i :: 0 <= i < |a| ==> f(a[i]) == Some(r.value[i])
    ensures r.Err? ==> r.error == FromBsonArray
  {
    if a == [] then Ok([])
    else match f(a[0])
      case None => Err(FromBsonArray)
      case Some(x) =>
        match BsonArray(a[1..], f)
        case Err(e) => Err(e)
        case Ok(xs) => Ok([x] + xs)
  }

  /** `Vec<f64>` into a double array: the first forbidden double is an error. */
  function AsDoubles(fs: seq<F64>): (r: Result<seq<Double>, TypeError>)
    ensures r.Ok? <==> forall i :: 0 <= i < |fs| ==> AsDouble(fs[i]).Ok?
    ensures r.Ok? ==> |r.value| == |fs| && forall i :: 0 <= i < |fs| ==> r.value[i] == fs[i]
    ensures r.Err? ==> r.error == Float
  {
    if fs == [] then Ok([])
    else match AsDouble(fs[0])
      case Err(e) => Err(e)
      case Ok(x) =>
        match AsDoubles(fs[1..])
        case Err(e) => Err(e)
        case Ok(xs) => Ok([x] + xs)
  }

  function AsEmpty(m: MappingType): AstarteData
    requires IsArray(m)
  {
    match m
    case TDoubleArray => DDoubleArray([])
    case TIntegerArray => DIntegerArray([])
    case TBooleanArray => DBooleanArray([])
    case TLongIntegerArray => DLongIntegerArray([])
    case TStringArray => DStringArray([])
    case TBinaryBlobArray => DBinaryBlobArray([])
    case TDateTimeArray => DDateTimeArray([])
  }

  /** `try_from_array`, on any array type. */
  function DecodeArray(m: MappingType, a: seq<Bson>): Result<AstarteData, TypeError>
    requires IsArray(m)
  {
    if a == [] then Ok(AsEmpty(m)) else
    match m
    case TDoubleArray =>
      (match BsonArray(a, AsF64)
       case Err(e) => Err(e)
       case Ok(fs) => Then(AsDoubles(fs), xs => DDoubleArray(xs)))
    case TIntegerArray => Then(BsonArray(a, AsI32), xs => DIntegerArray(xs))
    case TBooleanArray => Then(BsonArray(a, AsBool), xs => DBooleanArray(xs))
    case TLongIntegerArray => Then(BsonArray(a, AsI64), xs => DLongIntegerArray(xs))
    case TStringArray => Then(BsonArray(a, AsString), xs => DStringArray(xs))
    case TBinaryBlobArray => Then(BsonArray(a, AsBytes), xs => DBinaryBlobArray(xs))
    case TDateTimeArray => Then(BsonArray(a, AsTimestamp), xs => DDateTimeArray(xs))
  }

  predicate IsArray(m: MappingType) {
    m in {TDoubleArray, TIntegerArray, TBooleanArray, TLongIntegerArray, TStringArray, TBinaryBlobArray, TDateTimeArray}
  }

  /** `TryFrom<BsonConverter>`: a BSON value read under the type of its mapping. */
  function FromBson(m: MappingType, b: Bson): Result<AstarteData, TypeError> {
    match m
    case TDouble =>
      (match AsF64(b)
       case None => Err(InvalidType)
       case Some(f) => Then(AsDouble(f), x => DDouble(x)))
    case TInteger => Then(OkOr(AsI32(b), InvalidType), x => DInteger(x))
    case TBoolean => Then(OkOr(AsBool(b), InvalidType), x => DBoolean(x))
    case TLongInteger => Then(OkOr(AsI64(b), InvalidType), x => DLongInteger(x))
    case TString => Then(OkOr(AsString(b), InvalidType), x => DString(x))
    case TBinaryBlob => Then(OkOr(AsBytes(b), InvalidType), x => DBinaryBlob(x))
    case TDateTime => Then(OkOr(AsTimestamp(b), InvalidType), x => DDateTime(x))
    case _ => if b.Array? then DecodeArray(m, b.items) else Err(InvalidType)
  }

  // ---- Properties ---------------------------------------------------------------------------

  /** Decoding never changes the type asked for; forbidden doubles are shut out by the type `Double`. */
  lemma DecodeIsSound(m: MappingType, b: Bson)
    ensures FromBson(m, b).Ok? ==> TypeOf(FromBson(m, b).value) == m && EqMappingType(FromBson(m, b).value, m)
    ensures m == TDouble ==>
              (FromBson(m, b).Ok? <==> b.Double? && !IsNanOrInfinite(b.f) && !IsSubnormal(b.f))
  {
  }

  function TruncateTimestamp(t: Timestamp): Timestamp {
    t / MILLI * MILLI
  }

  /** The value up to the millisecond precision of BSON timestamps. */
  function Truncate(d: AstarteData): AstarteData {
    match d
    case DDateTime(t) => DDateTime(TruncateTimestamp(t))
    case DDateTimeArray(ts) => DDateTimeArray(Map(t => TruncateTimestamp(t), ts))
    case _ => d
  }

  lemma TimestampRoundTrip(t: Timestamp)
    ensures AsTimestamp(DateTime(ToMillis(t))) == Some(TruncateTimestamp(t))
  {
  }

  lemma DoublesRoundTrip(xs: seq<Double>)
    ensures FromBson(TDoubleArray, ToBson(DDoubleArray(xs))) == Ok(DDoubleArray(xs))
  {
    var items := ToBson(DDoubleArray(xs)).items;
    var fs := BsonArray(items, AsF64);
    assert forall i :: 0 <= i < |xs| ==> AsF64(items[i]) == Some(xs[i]);
    assert forall i :: 0 <= i < |xs| ==> AsDouble(fs.value[i]).Ok?;
    assert AsDoubles(fs.value).value == xs;
  }

  lemma TimestampsRoundTrip(ts: seq<Timestamp>)
    ensures FromBson(TDateTimeArray, ToBson(DDateTimeArray(ts))) == Ok(Truncate(DDateTimeArray(ts)))
  {
    var items := ToBson(DDateTimeArray(ts)).items;
    forall i | 0 <= i < |ts|
      ensures AsTimestamp(items[i]) == Some(TruncateTimestamp(ts[i]))
    {
      TimestampRoundTrip(ts[i]);
    }
    assert BsonArray(items, AsTimestamp).value == Map(t => TruncateTimestamp(t), ts);
  }

  lemma ScalarRoundTrip(d: AstarteData)
    requires !IsArray(TypeOf(d))
    ensures FromBson(TypeOf(d), ToBson(d)) == Ok(Truncate(d))
  {
  }

  lemma NumbersRoundTrip(d: AstarteData)
    requires d.DIntegerArray? || d.DLongIntegerArray? || d.DBooleanArray?
    ensures FromBson(TypeOf(d), ToBson(d)) == Ok(d)
  {
    match d
    case DIntegerArray(xs) => assert BsonArray(ToBson(d).items, AsI32).value == xs;
    case DBooleanArray(xs) => assert BsonArray(ToBson(d).items, AsBool).value == xs;
    case DLongIntegerArray(xs) => assert BsonArray(ToBson(d).items, AsI64).value == xs;
  }

  lemma TextsRoundTrip(d: AstarteData)
    requires d.DStringArray? || d.DBinaryBlobArray?
    ensures FromBson(TypeOf(d), ToBson(d)) == Ok(d)
  {
    match d
    case DStringArray(xs) => assert BsonArray(ToBson(d).items, AsString).value == xs;
    case DBinaryBlobArray(xs) => assert BsonArray(ToBson(d).items, AsBytes).value == xs;
  }

  /** Decoding what was encoded, under its own type, gives it back. */
  lemma RoundTrip(d: AstarteData)
    ensures FromBson(TypeOf(d), ToBson(d)) == Ok(Truncate(d))
  {
    match d
    case DDoubleArray(xs) => DoublesRoundTrip(xs);
    case DIntegerArray(_) => NumbersRoundTrip(d);
    case DBooleanArray(_) => NumbersRoundTrip(d);
    case DLongIntegerArray(_) => NumbersRoundTrip(d);
    case DStringArray(_) => TextsRoundTrip(d);
    case DBinaryBlobArray(_) => TextsRoundTrip(d);
    case DDateTimeArray(xs) => TimestampsRoundTrip(xs);
    case _ => ScalarRoundTrip(d);
  }

  /**
   Data accepted for a mapping decodes again under that mapping, widened to a long integer where one
   is expected, except for an integer accepted for a double: that is encoded as an integer, and refused.
   */
  lemma AcceptedDataDecodesIff(d: AstarteData, m: MappingType)
    requires EqMappingType(d, m)
    ensures FromBson(m, ToBson(d)).Ok? <==> !(d.DInteger? && m == TDouble)
    ensures FromBson(m, ToBson(d)).Ok? ==>
              FromBson(m, ToBson(d)).value
              == if d.DInteger? && m == TLongInteger then DLongInteger(d.integer) else Truncate(d)
  {
    if TypeOf(d) == m {
      RoundTrip(d);
    }
  }

  function ElementType(m: MappingType): MappingType
    requires IsArray(m)
  {
    match m
    case TDoubleArray => TDouble
    case TIntegerArray => TInteger
    case TBooleanArray => TBoolean
    case TLongIntegerArray => TLongInteger
    case TStringArray => TString
    case TBinaryBlobArray => TBinaryBlob
    case TDateTimeArray => TDateTime
  }

  function Elements(d: AstarteData): seq<AstarteData> {
    match d
    case DDoubleArray(xs) => Map(x => DDouble(x), xs)
    case DIntegerArray(xs) => Map(x => DInteger(x), xs)
    case DBooleanArray(xs) => Map(x => DBoolean(x), xs)
    case DLongIntegerArray(xs) => Map(x => DLongInteger(x), xs)
    case DStringArray(xs) => Map(x => DString(x), xs)
    case DBinaryBlobArray(xs) => Map(x => DBinaryBlob(x), xs)
    case DDateTimeArray(xs) => Map(x => DDateTime(x), xs)
    case _ => []
  }

  /** An array decodes exactly when each item does under the element type, and then item by item. */
  lemma ArrayDecodesItemwise(m: MappingType, a: seq<Bson>)
    requires IsArray(m)
    ensures FromBson(m, Array(a)).Ok? <==> forall i :: 0 <= i < |a| ==> FromBson(ElementType(m), a[i]).Ok?
    ensures FromBson(m, Array(a)).Ok? ==>
              var xs := Elements(FromBson(m, Array(a)).value);
              |xs| == |a| && forall i :: 0 <= i < |a| ==> FromBson(ElementType(m), a[i]) == Ok(xs[i])
  {
    if m == TDoubleArray {
      var fs := BsonArray(a, AsF64);
      assert fs.Ok? ==> forall i :: 0 <= i < |a| ==> AsF64(a[i]) == Some(fs.value[i]);
      assert fs.Ok? && AsDoubles(fs.value).Ok? ==> forall i :: 0 <= i < |a| ==> AsDouble(fs.value[i]).Ok?;
    }
  }

  // ---- What decoding accepts ----------------------------------------------------------------------

  /** A BSON item stands for a single value: of its own type, or an integer widened. */
  predicate ItemMeans(b: Bson, d: AstarteData) {
    match d
    case DDouble(x) => b == Double(x)
    case DInteger(x) => b == Int32(x)
    case DBoolean(x) => b == Boolean(x)
    case DLongInteger(x) => (b.Int64? && b.l == x) || (b.Int32? && b.i == x)
    case DString(x) => b == String(x)
    case DBinaryBlob(x) => b.Binary? && b.bytes == x
    case DDateTime(t) => b.DateTime? && (t == b.millis * MILLI || (t == MIN_UTC && b.millis * MILLI < MIN_UTC)
                                         || (t == MAX_UTC && b.millis * MILLI > MAX_UTC))
    case _ => false
  }

  predicate Means(b: Bson, d: AstarteData) {
    if !IsArray(TypeOf(d)) then ItemMeans(b, d)
    else
      && b.Array? && |b.items| == |Elements(d)|
      && forall i :: 0 <= i < |b.items| ==> ItemMeans(b.items[i], Elements(d)[i])
  }

  lemma ItemDecodesIff(m: MappingType, b: Bson, d: AstarteData)
    requires !IsArray(m)
    ensures FromBson(m, b) == Ok(d) <==> TypeOf(d) == m && ItemMeans(b, d)
  {
  }

  lemma ElementsInjective(d: AstarteData, e: AstarteData)
    requires TypeOf(d) == TypeOf(e) && IsArray(TypeOf(d)) && Elements(d) == Elements(e)
    ensures d == e
  {
    var xs, ys := Elements(d), Elements(e);
    match d
    case DDoubleArray(v) =>
      assert forall i :: 0 <= i < |v| ==> xs[i] == DDouble(v[i]) && ys[i] == DDouble(e.doubles[i]);
    case DIntegerArray(v) =>
      assert forall i :: 0 <= i < |v| ==> xs[i] == DInteger(v[i]) && ys[i] == DInteger(e.integers[i]);
    case DBooleanArray(v) =>
      assert forall i :: 0 <= i < |v| ==> xs[i] == DBoolean(v[i]) && ys[i] == DBoolean(e.booleans[i]);
    case DLongIntegerArray(v) =>
      assert forall i :: 0 <= i < |v| ==> xs[i] == DLongInteger(v[i]) && ys[i] == DLongInteger(e.longIntegers[i]);
    case DStringArray(v) =>
      assert forall i :: 0 <= i < |v| ==> xs[i] == DString(v[i]) && ys[i] == DString(e.strings[i]);
    case DBinaryBlobArray(v) =>
      assert forall i :: 0 <= i < |v| ==> xs[i] == DBinaryBlob(v[i]) && ys[i] == DBinaryBlob(e.blobs[i]);
    case DDateTimeArray(v) =>
      assert forall i :: 0 <= i < |v| ==> xs[i] == DDateTime(v[i]) && ys[i] == DDateTime(e.dateTimes[i]);
    case _ =>
  }

  /** Decoding accepts exactly the BSON values that stand for a value of the type asked for. */
  lemma DecodesIff(m: MappingType, b: Bson, d: AstarteData)
    ensures FromBson(m, b) == Ok(d) <==> TypeOf(d) == m && Means(b, d)
  {
    if !IsArray(m) {
      ItemDecodesIff(m, b, d);
    } else if b.Array? {
      ArrayDecodesItemwise(m, b.items);
      if TypeOf(d) == m {
        ElementTypes(d);
      }
      if FromBson(m, b) == Ok(d) {
        DecodeIsSound(m, b);
        ItemsMean(m, b.items, Elements(d));
      }
      if TypeOf(d) == m && Means(b, d) {
        ItemsMean(m, b.items, Elements(d));
        DecodeIsSound(m, b);
        ElementsInjective(FromBson(m, b).value, d);
      }
    }
  }

  lemma ItemsMean(m: MappingType, a: seq<Bson>, xs: seq<AstarteData>)
    requires IsArray(m) && |a| == |xs|
    requires forall i :: 0 <= i < |xs| ==> TypeOf(xs[i]) == ElementType(m)
    ensures (forall i :: 0 <= i < |a| ==> FromBson(ElementType(m), a[i]) == Ok(xs[i]))
       <==> forall i :: 0 <= i < |a| ==> ItemMeans(a[i], xs[i])
  {
    forall i | 0 <= i < |a|
      ensures FromBson(ElementType(m), a[i]) == Ok(xs[i]) <==> ItemMeans(a[i], xs[i])
    {
      ItemDecodesIff(ElementType(m), a[i], xs[i]);
    }
  }

  lemma ElementTypes(d: AstarteData)
    requires IsArray(TypeOf(d))
    ensures forall i :: 0 <= i < |Elements(d)| ==> TypeOf(Elements(d)[i]) == ElementType(TypeOf(d))
  {
  }
}
