/**
 * The string-blob codec of PreferencesJson.kt, at the level of JSON elements.
 *
 * Every entry becomes an object `{"type": <ValueType name>, "value": <payload>}` under
 * its own key. A `Long` travels as an array of two `Int`s, its signed high and low
 * 32-bit words. Decoding is all or nothing: one bad entry makes the whole blob fail.
 */
module PreferencesJson {
  import opened Wrappers
  import opened PreferencesStore

  /** A JSON number as the codec produces it: from an `Int` or from a `Float`. */
  datatype Number = IntegerNumber(n: int) | FloatNumber(float: Float32)

  /** A JSON element: object, array, string, number or boolean. */
  datatype Json =
    | JObject(fields: map<string, Json>)
    | JArray(items: seq<Json>)
    | JString(str: string)
    | JNumber(number: Number)
    | JBool(boolean: bool)

  /** The tags written under "type". */
  datatype ValueType = Boolean | Int | Long | Float | String | StringSet

  const KeyType: string := "type"
  const KeyValue: string := "value"

  /** Why encoding throws `IllegalArgumentException`. */
  datatype EncodeError = UnsupportedType(value: Value)

  /** Why decoding throws. */
  datatype DecodeError =
    | NotAnObject
    | NotAnArray
    | NotAPrimitive
    | NotAString
    | NotABoolean
    | NotAnInt
    | NotAFloat
    | IndexOutOfBounds(index: nat)
    | MissingKey(key: string)
    | UnknownValueType(name: string)

  /** `ValueType.name`. */
  function Name(t: ValueType): (r: string)
    ensures r == "Boolean" <==> t == Boolean
    ensures r == "Int" <==> t == Int
    ensures r == "Long" <==> t == Long
    ensures r == "Float" <==> t == Float
    ensures r == "String" <==> t == String
    ensures r == "StringSet" <==> t == StringSet
  {
    match t
    case Boolean => "Boolean"
    case Int => "Int"
    case Long => "Long"
    case Float => "Float"
    case String => "String"
    case StringSet => "StringSet"
  }

  /** `ValueType.valueOf`, which throws on any other name. */
  function ValueOf(name: string): (r: Option<ValueType>)
    ensures r.Some? ==> Name(r.value) == name
    ensures r.None? ==> forall t :: Name(t) != name
  {
    if name == "Boolean" then Some(Boolean)
    else if name == "Int" then Some(Int)
    else if name == "Long" then Some(Long)
    else if name == "Float" then Some(Float)
    else if name == "String" then Some(String)
    else if name == "StringSet" then Some(StringSet)
    else None
  }

  /** `valueOf` inverts `name`. */
  lemma ValueOfName(t: ValueType)
    ensures ValueOf(Name(t)) == Some(t)
  {
  }

  // ---------------------------------------------------------------------------
  // The Long split: 32-bit words and their two's-complement readings.

  /** The low 32 bits of a 64-bit pattern. */
  function Low32(bits: bv64): bv32
  {
    (bits & 0xFFFF_FFFF) as bv32
  }

  /** A 32-bit pattern read as a signed `Int`. */
  function Signed(word: bv32): int32
  {
    if word < 0x8000_0000 then (word as int) as int32 else (word as int - 0x1_0000_0000) as int32
  }

  /** The 32-bit pattern of an `Int`. */
  function Unsigned(i: int32): bv32
  {
    if i >= 0 then (i as int) as bv32 else (i as int + 0x1_0000_0000) as bv32
  }

  /** `Long.toInt()`: the low 32 bits, read as a signed `Int`. */
  function LongToInt(bits: bv64): int32
  {
    Signed(Low32(bits))
  }

  /** A 32-bit pattern widened to 64 bits with its sign bit copied into the high word. */
  function Extend(word: bv32): bv64
  {
    if word & 0x8000_0000 == 0 then word as bv64 else (word as bv64) | 0xFFFF_FFFF_0000_0000
  }

  /** `Int.toLong()`: sign extension of the `Int`'s pattern. */
  function IntToLong(i: int32): bv64
  {
    Extend(Unsigned(i))
  }

  /** `(value ushr 32).toInt()`: the high word, whose pattern is bits 32 to 63. */
  function HighBits(bits: bv64): (r: int32)
    ensures Unsigned(r) == Low32(bits >> 32)
  {
    UnsignedSigned(Low32(bits >> 32));
    LongToInt(bits >> 32)
  }

  /** `value.toInt()`: the low word, whose pattern is bits 0 to 31. */
  function LowBits(bits: bv64): (r: int32)
    ensures Unsigned(r) == Low32(bits)
  {
    UnsignedSigned(Low32(bits));
    LongToInt(bits)
  }

  /**
   * `(highBits.toLong() shl 32) or (lowBits.toLong() and 0xFFFFFFFFL)`: `toLong()` is the
   * sign extension of the `Int`'s pattern. The high and low words of the result are the
   * patterns of `high` and `low`.
   */
  function JoinBits(high: int32, low: int32): (r: bv64)
    ensures Low32(r >> 32) == Unsigned(high)
    ensures Low32(r) == Unsigned(low)
  {
    JoinWords(Unsigned(high), Unsigned(low))
  }

  /** The join on the two 32-bit patterns. */
  function JoinWords(high: bv32, low: bv32): (r: bv64)
    ensures Low32(r >> 32) == high
    ensures Low32(r) == low
  {
    JoinOfWords(high, low);
    (Extend(high) << 32) | (Extend(low) & 0xFFFF_FFFF)
  }

  /** Sign extension of the low word, stated on bits alone. */
  function SignExtend(bits: bv64): bv64
  {
    if bits & 0x8000_0000 == 0 then bits & 0xFFFF_FFFF else bits | 0xFFFF_FFFF_0000_0000
  }

  /** Reading a 32-bit pattern as a signed `Int` and taking its pattern again gives it back. */
  lemma UnsignedSigned(word: bv32)
    ensures Unsigned(Signed(word)) == word
  {
    if word < 0x8000_0000 {
      assert Signed(word) as int == word as int;
    } else {
      assert Signed(word) as int == word as int - 0x1_0000_0000;
    }
  }

  lemma WidenLow32(bits: bv64)
    ensures Low32(bits) as bv64 == bits & 0xFFFF_FFFF
  {
  }

  lemma SignBitOfLow(bits: bv64, word: bv32)
    requires word as bv64 == bits & 0xFFFF_FFFF
    ensures word & 0x8000_0000 == 0 <==> bits & 0x8000_0000 == 0
  {
  }

  lemma HighWordOnes(bits: bv64)
    ensures (bits & 0xFFFF_FFFF) | 0xFFFF_FFFF_0000_0000 == bits | 0xFFFF_FFFF_0000_0000
  {
  }

  lemma ExtendClear(word: bv32)
    requires word & 0x8000_0000 == 0
    ensures Extend(word) == word as bv64
  {
  }

  lemma ExtendSet(word: bv32)
    requires word & 0x8000_0000 != 0
    ensures Extend(word) == (word as bv64) | 0xFFFF_FFFF_0000_0000
  {
  }

  lemma SignExtendClear(bits: bv64)
    requires bits & 0x8000_0000 == 0
    ensures SignExtend(bits) == bits & 0xFFFF_FFFF
  {
  }

  lemma SignExtendSet(bits: bv64)
    requires bits & 0x8000_0000 != 0
    ensures SignExtend(bits) == bits | 0xFFFF_FFFF_0000_0000
  {
  }

  /** Widening the low word with its sign copied upwards is sign extension of the 64-bit pattern. */
  lemma ExtendLow32(bits: bv64, word: bv32)
    requires word as bv64 == bits & 0xFFFF_FFFF
    ensures Extend(word) == SignExtend(bits)
  {
    SignBitOfLow(bits, word);
    if bits & 0x8000_0000 == 0 {
      ExtendClear(word);
      SignExtendClear(bits);
    } else {
      ExtendSet(word);
      SignExtendSet(bits);
      HighWordOnes(bits);
    }
  }

  lemma NarrowWiden(word: bv32)
    ensures Low32(word as bv64) == word
  {
  }

  lemma NarrowOnes(word: bv32)
    ensures Low32((word as bv64) | 0xFFFF_FFFF_0000_0000) == word
  {
  }

  /** Sign extension keeps the 32-bit pattern in the low word. */
  lemma ExtendLowWord(word: bv32)
    ensures Low32(Extend(word)) == word
  {
    if word & 0x8000_0000 == 0 {
      ExtendClear(word);
      NarrowWiden(word);
    } else {
      ExtendSet(word);
      NarrowOnes(word);
    }
  }

  lemma ShiftOrWords(a: bv64, b: bv64)
    ensures Low32(((a << 32) | (b & 0xFFFF_FFFF)) >> 32) == Low32(a)
    ensures Low32((a << 32) | (b & 0xFFFF_FFFF)) == Low32(b)
  {
  }

  /** The words of a join are the words it was made from. */
  lemma JoinOfWords(high: bv32, low: bv32)
    ensures Low32(((Extend(high) << 32) | (Extend(low) & 0xFFFF_FFFF)) >> 32) == high
    ensures Low32((Extend(high) << 32) | (Extend(low) & 0xFFFF_FFFF)) == low
  {
    ExtendLowWord(high);
    ExtendLowWord(low);
    ShiftOrWords(Extend(high), Extend(low));
  }

  /** `x.toInt().toLong()` sign-extends the low word of `x`. */
  lemma IntToLongOfLongToInt(bits: bv64)
    ensures IntToLong(LongToInt(bits)) == SignExtend(bits)
  {
    var word := Low32(bits);
    UnsignedSigned(word);
    assert IntToLong(LongToInt(bits)) == Extend(word);
    WidenLow32(bits);
    ExtendLow32(bits, word);
  }

  lemma SignExtendHighWord(bits: bv64)
    ensures SignExtend(bits >> 32) << 32 == (bits >> 32) << 32
  {
    var high := bits >> 32;
    if high & 0x8000_0000 == 0 {
      assert (high & 0xFFFF_FFFF) << 32 == high << 32;
    } else {
      assert (high | 0xFFFF_FFFF_0000_0000) << 32 == high << 32;
    }
  }

  lemma OnesLowWord(bits: bv64)
    ensures (bits | 0xFFFF_FFFF_0000_0000) & 0xFFFF_FFFF == bits & 0xFFFF_FFFF
  {
  }

  lemma MaskLowWord(bits: bv64)
    ensures (bits & 0xFFFF_FFFF) & 0xFFFF_FFFF == bits & 0xFFFF_FFFF
  {
  }

  /** Sign extension keeps the low word. */
  lemma SignExtendLowWord(bits: bv64)
    ensures SignExtend(bits) & 0xFFFF_FFFF == bits & 0xFFFF_FFFF
  {
    if bits & 0x8000_0000 == 0 {
      SignExtendClear(bits);
      MaskLowWord(bits);
    } else {
      SignExtendSet(bits);
      OnesLowWord(bits);
    }
  }

  lemma Words(bits: bv64)
    ensures ((bits >> 32) << 32) | (bits & 0xFFFF_FFFF) == bits
  {
  }

  /** Joining the two words of any `Long`, negative ones included, gives it back. */
  lemma {:induction false} LongSplitRoundTrip(bits: bv64)
    ensures JoinBits(HighBits(bits), LowBits(bits)) == bits
  {
    IntToLongOfLongToInt(bits >> 32);
    IntToLongOfLongToInt(bits);
    SignExtendHighWord(bits);
    SignExtendLowWord(bits);
    Words(bits);
  }

  /** The high word carries the sign of the `Long`. */
  lemma HighBitsSign(bits: bv64)
    ensures HighBits(bits) < 0 <==> bits & 0x8000_0000_0000_0000 != 0
  {
    var high := (bits >> 32) & 0xFFFF_FFFF;
    assert high & 0x8000_0000 == 0 <==> bits & 0x8000_0000_0000_0000 == 0;
    WidenLow32(bits >> 32);
    assert Low32(bits >> 32) < 0x8000_0000 <==> high & 0x8000_0000 == 0;
  }

  /** 2^32, -1 and 2^31 split into the words one expects. */
  lemma LongSplitExamples()
    ensures HighBits(0x1_0000_0000) == 1 && LowBits(0x1_0000_0000) == 0
    ensures HighBits(0xFFFF_FFFF_FFFF_FFFF) == -1 && LowBits(0xFFFF_FFFF_FFFF_FFFF) == -1
    ensures HighBits(0x8000_0000) == 0 && LowBits(0x8000_0000) == -0x8000_0000
  {
  }

  // ---------------------------------------------------------------------------
  // Encoding.

  /** The `when (value)` classification; `None` for anything outside the six kinds. */
  function TypeOf(v: Value): (r: Option<ValueType>)
    ensures r.None? <==> v.OtherValue?
  {
    match v
    case BooleanValue(_) => Some(Boolean)
    case IntValue(_) => Some(Int)
    case LongValue(_) => Some(Long)
    case FloatValue(_) => Some(Float)
    case StringValue(_) => Some(String)
    case StringSetValue(_) => Some(StringSet)
    case OtherValue(_) => None
  }

  /** The entry object: exactly a "type" field and a "value" field. */
  function Tagged(t: ValueType, payload: Json): (r: Json)
    ensures r.JObject? && r.fields.Keys == {KeyType, KeyValue}
    ensures r.fields[KeyType] == JString(Name(t)) && r.fields[KeyValue] == payload
  {
    JObject(map[KeyType := JString(Name(t)), KeyValue := payload])
  }

  /** The payload of a `Long`: its high and low words as JSON numbers, which decode back to it. */
  function LongPayload(bits: bv64): (r: Json)
    ensures r.JArray? && |r.items| == 2
    ensures DecodeLong(r) == Success(bits)
  {
    LongSplitRoundTrip(bits);
    JArray([JNumber(IntegerNumber(HighBits(bits) as int)), JNumber(IntegerNumber(LowBits(bits) as int))])
  }

  /** `items` holds one JSON string per member of `strings`, in some order. */
  predicate StringArray(items: seq<Json>, strings: set<string>)
  {
    && (forall i | 0 <= i < |items| :: items[i].JString? && items[i].str in strings)
    && (forall s | s in strings :: JString(s) in items)
    && (forall i, j | 0 <= i < j < |items| :: items[i] != items[j])
  }

  /** `e` is what encoding writes for the value `v`. */
  predicate EncodedAs(v: Value, e: Json)
  {
    match v
    case BooleanValue(b) => e == Tagged(Boolean, JBool(b))
    case IntValue(i) => e == Tagged(Int, JNumber(IntegerNumber(i as int)))
    case LongValue(bits) => e == Tagged(Long, LongPayload(bits))
    case FloatValue(f) => e == Tagged(Float, JNumber(FloatNumber(f)))
    case StringValue(s) => e == Tagged(String, JString(s))
    case StringSetValue(strings) =>
      && e.JObject? && KeyValue in e.fields && e.fields[KeyValue].JArray?
      && e == Tagged(StringSet, e.fields[KeyValue])
      && StringArray(e.fields[KeyValue].items, strings)
    case OtherValue(_) => false
  }

  /** `j` is what encoding writes for the map `m`: one entry object under each key. */
  predicate Encoded(m: map<string, Value>, j: Json)
  {
    j.JObject? && j.fields.Keys == m.Keys && forall k | k in m :: EncodedAs(m[k], j.fields[k])
  }

  /** Every encoded entry is a `{type, value}` object tagged with its value's kind. */
  lemma EncodedEntryShape(v: Value, e: Json)
    requires EncodedAs(v, e)
    ensures TypeOf(v).Some?
    ensures e.JObject? && e.fields.Keys == {KeyType, KeyValue}
    ensures e.fields[KeyType] == JString(Name(TypeOf(v).value))
  {
  }

  /** `value.map { JsonPrimitive(it) }` over a string set. */
  method EncodeStringSet(strings: set<string>) returns (items: seq<Json>)
    ensures StringArray(items, strings)
  {
    items := [];
    var remaining := strings;
    while remaining != {}
      invariant remaining <= strings
      invariant forall i | 0 <= i < |items| :: items[i].JString? && items[i].str in strings - remaining
      invariant forall s | s in strings - remaining :: JString(s) in items
      invariant forall i, j | 0 <= i < j < |items| :: items[i] != items[j]
      decreases remaining
    {
      var s :| s in remaining;
      items := items + [JString(s)];
      remaining := remaining - {s};
    }
  }

  /** The body of the encoding loop for one value. */
  method EncodeValue(v: Value) returns (r: Result<Json, EncodeError>)
    ensures r.Failure? <==> TypeOf(v).None?
    ensures r.Failure? ==> r.error == UnsupportedType(v)
    ensures r.Success? ==> EncodedAs(v, r.value)
  {
    var valueType: ValueType;
    var valueValue: Json;
    match v {
      case BooleanValue(b) =>
        valueType, valueValue := Boolean, JBool(b);
      case FloatValue(f) =>
        valueType, valueValue := Float, JNumber(FloatNumber(f));
      case IntValue(i) =>
        valueType, valueValue := Int, JNumber(IntegerNumber(i as int));
      case LongValue(bits) =>
        valueType, valueValue := Long, LongPayload(bits);
      case StringValue(s) =>
        valueType, valueValue := String, JString(s);
      case StringSetValue(strings) =>
        var items := EncodeStringSet(strings);
        valueType, valueValue := StringSet, JArray(items);
      case OtherValue(_) =>
        return Failure(UnsupportedType(v));
    }
    r := Success(Tagged(valueType, valueValue));
  }

  /** The loop of `encodeToString` over the entries of a map. */
  method EncodeEntries(m: map<string, Value>) returns (r: Result<Json, EncodeError>)
    ensures r.Success? <==> forall k | k in m :: TypeOf(m[k]).Some?
    ensures r.Success? ==> Encoded(m, r.value)
    ensures r.Failure? ==> exists k | k in m :: TypeOf(m[k]).None? && r.error == UnsupportedType(m[k])
  {
    var fields: map<string, Json> := map[];
    var remaining := m.Keys;
    while remaining != {}
      invariant remaining <= m.Keys
      invariant fields.Keys == m.Keys - remaining
      invariant forall k | k in fields :: EncodedAs(m[k], fields[k])
      decreases remaining
    {
      var key :| key in remaining;
      var entry := EncodeValue(m[key]);
      if entry.Failure? {
        return Failure(entry.error);
      }
      fields := fields[key := entry.value];
      remaining := remaining - {key};
    }
    r := Success(JObject(fields));
  }

  /** `encodeToString`, up to the text layer: encodes `preferences.asMap()`. */
  method EncodeToString(preferences: Preferences) returns (r: Result<Json, EncodeError>)
    ensures r.Success? <==> forall k | k in preferences.AsMap() :: TypeOf(preferences.AsMap()[k]).Some?
    ensures r.Success? ==> Encoded(preferences.AsMap(), r.value)
  {
    var m := preferences.AsMap();
    r := EncodeEntries(m);
    assert m == preferences.AsMap();
  }

  // ---------------------------------------------------------------------------
  // Decoding.

  /** `.jsonPrimitive.string`, which also requires `isString`. */
  function AsString(e: Json): (r: Result<string, DecodeError>)
    ensures r.Success? <==> e.JString?
    ensures r.Success? ==> r.value == e.str
  {
    match e
    case JString(s) => Success(s)
    case JObject(_) => Failure(NotAPrimitive)
    case JArray(_) => Failure(NotAPrimitive)
    case _ => Failure(NotAString)
  }

  /** `.jsonPrimitive.boolean`. */
  function AsBoolean(e: Json): (r: Result<bool, DecodeError>)
    ensures r.Success? <==> e.JBool?
    ensures r.Success? ==> r.value == e.boolean
  {
    match e
    case JBool(b) => Success(b)
    case JObject(_) => Failure(NotAPrimitive)
    case JArray(_) => Failure(NotAPrimitive)
    case _ => Failure(NotABoolean)
  }

  /** `.jsonPrimitive.int`: an integer number that fits in 32 bits. */
  function AsInt(e: Json): (r: Result<int32, DecodeError>)
    ensures r.Success? <==> e.JNumber? && e.number.IntegerNumber? && -0x8000_0000 <= e.number.n < 0x8000_0000
    ensures r.Success? ==> r.value as int == e.number.n
  {
    match e
    case JNumber(IntegerNumber(n)) =>
      if -0x8000_0000 <= n < 0x8000_0000 then Success(n as int32) else Failure(NotAnInt)
    case JObject(_) => Failure(NotAPrimitive)
    case JArray(_) => Failure(NotAPrimitive)
    case _ => Failure(NotAnInt)
  }

  /** `.jsonPrimitive.float`. */
  function AsFloat(e: Json): (r: Result<Float32, DecodeError>)
    ensures r.Success? <==> e.JNumber? && e.number.FloatNumber?
    ensures r.Success? ==> r.value == e.number.float
  {
    match e
    case JNumber(FloatNumber(f)) => Success(f)
    case JObject(_) => Failure(NotAPrimitive)
    case JArray(_) => Failure(NotAPrimitive)
    case _ => Failure(NotAFloat)
  }

  /** `mapTo(mutableSetOf()) { it.jsonPrimitive.string }`, failing at the first non-string. */
  function AsStringSet(items: seq<Json>): (r: Result<set<string>, DecodeError>)
    ensures r.Success? <==> forall i | 0 <= i < |items| :: items[i].JString?
    ensures r.Success? ==> forall s :: s in r.value <==> JString(s) in items
  {
    if items == [] then Success({})
    else
      match AsString(items[0])
      case Failure(error) => Failure(error)
      case Success(first) =>
        match AsStringSet(items[1..])
        case Failure(error) => Failure(error)
        case Success(rest) => Success({first} + rest)
  }

  /** The `Long` branch: `valueArray[0]`, then `valueArray[1]`; extra items are ignored. */
  function DecodeLong(payload: Json): (r: Result<bv64, DecodeError>)
    ensures r.Success? <==>
      && payload.JArray? && |payload.items| >= 2
      && AsInt(payload.items[0]).Success? && AsInt(payload.items[1]).Success?
    ensures r.Success? ==> r.value == JoinBits(AsInt(payload.items[0]).value, AsInt(payload.items[1]).value)
  {
    if !payload.JArray? then Failure(NotAnArray)
    else if |payload.items| == 0 then Failure(IndexOutOfBounds(0))
    else
      match AsInt(payload.items[0])
      case Failure(error) => Failure(error)
      case Success(high) =>
        if |payload.items| == 1 then Failure(IndexOutOfBounds(1))
        else
          match AsInt(payload.items[1])
          case Failure(error) => Failure(error)
          case Success(low) => Success(JoinBits(high, low))
  }

  /** The `when (valueType)` of decoding. */
  function DecodePayload(t: ValueType, payload: Json): (r: Result<Value, DecodeError>)
    ensures r.Success? ==> TypeOf(r.value) == Some(t)
    ensures t == Boolean ==> (r.Success? <==> AsBoolean(payload).Success?)
    ensures t == Boolean && r.Success? ==> r.value == BooleanValue(AsBoolean(payload).value)
    ensures t == Int ==> (r.Success? <==> AsInt(payload).Success?)
    ensures t == Int && r.Success? ==> r.value == IntValue(AsInt(payload).value)
    ensures t == Long ==> (r.Success? <==> DecodeLong(payload).Success?)
    ensures t == Long && r.Success? ==> r.value == LongValue(DecodeLong(payload).value)
    ensures t == Float ==> (r.Success? <==> AsFloat(payload).Success?)
    ensures t == Float && r.Success? ==> r.value == FloatValue(AsFloat(payload).value)
    ensures t == String ==> (r.Success? <==> AsString(payload).Success?)
    ensures t == String && r.Success? ==> r.value == StringValue(AsString(payload).value)
    ensures t == StringSet ==> (r.Success? <==> payload.JArray? && AsStringSet(payload.items).Success?)
    ensures t == StringSet && r.Success? ==> r.value == StringSetValue(AsStringSet(payload.items).value)
  {
    match t
    case Boolean =>
      (match AsBoolean(payload) case Success(b) => Success(BooleanValue(b)) case Failure(error) => Failure(error))
    case Int =>
      (match AsInt(payload) case Success(i) => Success(IntValue(i)) case Failure(error) => Failure(error))
    case Long =>
      (match DecodeLong(payload) case Success(bits) => Success(LongValue(bits)) case Failure(error) => Failure(error))
    case Float =>
      (match AsFloat(payload) case Success(f) => Success(FloatValue(f)) case Failure(error) => Failure(error))
    case String =>
      (match AsString(payload) case Success(s) => Success(StringValue(s)) case Failure(error) => Failure(error))
    case StringSet =>
      if !payload.JArray? then Failure(NotAnArray)
      else
        (match AsStringSet(payload.items) case Success(ss) => Success(StringSetValue(ss)) case Failure(error) => Failure(error))
  }

  /** The body of the decoding loop for one entry. */
  function DecodeEntry(e: Json): (r: Result<Value, DecodeError>)
    ensures !e.JObject? ==> r == Failure(NotAnObject)
    ensures e.JObject? && KeyType !in e.fields ==> r == Failure(MissingKey(KeyType))
    ensures e.JObject? && KeyType in e.fields && !e.fields[KeyType].JString? ==> r.Failure?
    ensures e.JObject? && KeyType in e.fields && e.fields[KeyType].JString? && ValueOf(e.fields[KeyType].str).None?
      ==> r == Failure(UnknownValueType(e.fields[KeyType].str))
    ensures e.JObject? && KeyValue !in e.fields ==> r.Failure?
    ensures e.JObject? && KeyType in e.fields && e.fields[KeyType].JString?
      && ValueOf(e.fields[KeyType].str).Some? && KeyValue in e.fields
      ==> r == DecodePayload(ValueOf(e.fields[KeyType].str).value, e.fields[KeyValue])
    ensures r.Success? ==>
      && e.JObject? && KeyType in e.fields && KeyValue in e.fields && e.fields[KeyType].JString?
      && ValueOf(e.fields[KeyType].str) == TypeOf(r.value)
  {
    if !e.JObject? then Failure(NotAnObject)
    else if KeyType !in e.fields then Failure(MissingKey(KeyType))
    else
      match AsString(e.fields[KeyType])
      case Failure(error) => Failure(error)
      case Success(name) =>
        match ValueOf(name)
        case None => Failure(UnknownValueType(name))
        case Some(t) =>
          if KeyValue !in e.fields then Failure(MissingKey(KeyValue))
          else DecodePayload(t, e.fields[KeyValue])
  }

  /** Every entry of the blob decodes. */
  predicate AllEntriesDecode(j: Json)
  {
    j.JObject? && forall k | k in j.fields :: DecodeEntry(j.fields[k]).Success?
  }

  /** The map a fully decodable blob stands for. */
  function DecodedMap(j: Json): map<string, Value>
    requires AllEntriesDecode(j)
  {
    map k | k in j.fields :: DecodeEntry(j.fields[k]).value
  }

  /** The loop of `decodeFromString`: the first failing entry fails the whole blob. */
  method DecodeEntries(j: Json) returns (r: Result<map<string, Value>, DecodeError>)
    ensures r.Success? <==> AllEntriesDecode(j)
    ensures r.Success? ==> r.value == DecodedMap(j)
    ensures r.Failure? && j.JObject? ==> exists k | k in j.fields :: DecodeEntry(j.fields[k]) == Failure(r.error)
    ensures !j.JObject? ==> r == Failure(NotAnObject)
  {
    if !j.JObject? {
      return Failure(NotAnObject);
    }
    var entries: map<string, Value> := map[];
    var remaining := j.fields.Keys;
    while remaining != {}
      invariant remaining <= j.fields.Keys
      invariant entries.Keys == j.fields.Keys - remaining
      invariant forall k | k in entries :: DecodeEntry(j.fields[k]) == Success(entries[k])
      decreases remaining
    {
      var key :| key in remaining;
      var value := DecodeEntry(j.fields[key]);
      if value.Failure? {
        return Failure(value.error);
      }
      entries := entries[key := value.value];
      remaining := remaining - {key};
    }
    r := Success(entries);
  }

  /** `decodeFromString`, up to the text layer: a fresh `MapPreferences` over the decoded map. */
  method DecodeFromString(j: Json) returns (r: Result<MapPreferences, DecodeError>)
    ensures r.Success? <==> AllEntriesDecode(j)
    ensures r.Success? ==> fresh(r.value) && r.value.entries == DecodedMap(j)
  {
    var entries := DecodeEntries(j);
    if entries.Failure? {
      return Failure(entries.error);
    }
    var preferences := new MapPreferences(entries.value);
    r := Success(preferences);
  }

  // ---------------------------------------------------------------------------
  // Round trip.

  /** The strings of a string array decode back to the set they came from. */
  lemma {:induction false} StringArrayDecodes(items: seq<Json>, strings: set<string>)
    requires StringArray(items, strings)
    ensures AsStringSet(items) == Success(strings)
  {
    var r := AsStringSet(items);
    assert r.Success?;
    forall s ensures s in r.value <==> s in strings {
      if s in strings {
        assert JString(s) in items;
      }
      if s in r.value {
        var i :| 0 <= i < |items| && items[i] == JString(s);
        assert items[i].str in strings;
      }
    }
    assert r.value == strings;
  }

  /** A tagged entry object decodes to its payload decoded under the tag. */
  lemma DecodeTagged(t: ValueType, payload: Json)
    ensures DecodeEntry(Tagged(t, payload)) == DecodePayload(t, payload)
  {
    ValueOfName(t);
    assert Tagged(t, payload).fields[KeyType] == JString(Name(t));
    assert KeyValue in Tagged(t, payload).fields;
  }

  /** The two words written for a `Long` decode back to it. */
  lemma DecodeLongPayload(bits: bv64)
    ensures DecodePayload(Long, LongPayload(bits)) == Success(LongValue(bits))
  {
  }

  /** Decoding what was encoded for one value gives the value back. */
  lemma {:induction false} DecodeEncodedValue(v: Value, e: Json)
    requires EncodedAs(v, e)
    ensures DecodeEntry(e) == Success(v)
  {
    match v {
      case BooleanValue(b) =>
        DecodeTagged(Boolean, JBool(b));
      case IntValue(i) =>
        DecodeTagged(Int, JNumber(IntegerNumber(i as int)));
      case LongValue(bits) =>
        DecodeTagged(Long, LongPayload(bits));
        DecodeLongPayload(bits);
      case FloatValue(f) =>
        DecodeTagged(Float, JNumber(FloatNumber(f)));
      case StringValue(str) =>
        DecodeTagged(String, JString(str));
      case StringSetValue(strings) =>
        DecodeTagged(StringSet, e.fields[KeyValue]);
        StringArrayDecodes(e.fields[KeyValue].items, strings);
    }
  }

  /** `decode(encode(p)) == p`: the same key set and the same value under each key. */
  lemma {:induction false} RoundTrip(m: map<string, Value>, j: Json)
    requires Encoded(m, j)
    ensures AllEntriesDecode(j)
    ensures DecodedMap(j) == m
  {
    forall k | k in j.fields
      ensures DecodeEntry(j.fields[k]) == Success(m[k])
    {
      DecodeEncodedValue(m[k], j.fields[k]);
    }
  }

  /**
   * Three good entries and one with an unknown tag: the whole blob fails, rather than
   * yielding the three good keys.
   */
  lemma UnknownTagFailsWholeBlob()
    ensures !AllEntriesDecode(JObject(map[
      "a" := Tagged(Boolean, JBool(true)),
      "b" := Tagged(Int, JNumber(IntegerNumber(7))),
      "c" := Tagged(String, JString("x")),
      "d" := JObject(map[KeyType := JString("Double"), KeyValue := JNumber(IntegerNumber(1))])]))
  {
    var d := JObject(map[KeyType := JString("Double"), KeyValue := JNumber(IntegerNumber(1))]);
    assert ValueOf("Double").None?;
    assert DecodeEntry(d).Failure?;
    var blob := map[
      "a" := Tagged(Boolean, JBool(true)),
      "b" := Tagged(Int, JNumber(IntegerNumber(7))),
      "c" := Tagged(String, JString("x")),
      "d" := d];
    assert "d" in blob && blob["d"] == d;
  }

  /** Fields other than "type" and "value" are never read: an extra field does not stop an entry decoding. */
  lemma ExtraFieldIgnored()
    ensures DecodeEntry(JObject(map[
      KeyType := JString("Int"), KeyValue := JNumber(IntegerNumber(5)), "note" := JBool(true)]))
      == Success(IntValue(5))
  {
    var e := JObject(map[KeyType := JString("Int"), KeyValue := JNumber(IntegerNumber(5)), "note" := JBool(true)]);
    assert e.fields[KeyType] == JString("Int") && KeyValue in e.fields;
    assert ValueOf("Int") == Some(Int);
  }

  /**
   * Good entries and one `StringSet` entry whose array holds a number: the whole blob
   * fails, rather than yielding the good keys or the set without the number.
   */
  lemma NonStringSetElementFailsWholeBlob()
    ensures !AllEntriesDecode(JObject(map[
      "a" := Tagged(Boolean, JBool(true)),
      "c" := Tagged(String, JString("x")),
      "s" := Tagged(StringSet, JArray([JString("x"), JNumber(IntegerNumber(1))]))]))
  {
    var payload := JArray([JString("x"), JNumber(IntegerNumber(1))]);
    assert !payload.items[1].JString?;
    DecodeTagged(StringSet, payload);
    var blob := map[
      "a" := Tagged(Boolean, JBool(true)),
      "c" := Tagged(String, JString("x")),
      "s" := Tagged(StringSet, payload)];
    assert "s" in blob && DecodeEntry(blob["s"]).Failure?;
  }
}
