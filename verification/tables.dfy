/**
 * The field-table codec: section 4.2.5.5 of AMQP 0-9-1 with the type letters of RabbitMQ
 * (streadway/amqp write.go, read.go and types.go).
 */
module Tables {
  import opened Wire

  /** An instant: whole seconds since the epoch and nanoseconds. Floats are their IEEE bit patterns. */
  datatype Time = Time(sec: Int64, nsec: nat)

  datatype Scalar =
    | Bool(b: bool)
    | Octet(n: Byte)
    | Short(i16: Int16)
    | Long(i32: Int32)
    | LongLong(i64: Int64)
    | Float(bits32: UInt32)
    | Double(bits64: UInt64)
    | Decimal(scale: Byte, value: Int32)
    | Text(text: Bytes)
    | Blob(blob: Bytes)
    | Timestamp(time: Time)
    | Nil

  /** A field value as the program holds it; Unsupported is any other Go type. */
  datatype Value =
    | Scalar(scalar: Scalar)
    | Array(items: seq<Value>)
    | Table(fields: map<Bytes, Value>)
    | Unsupported

  /** A value together with the order in which a run happens to visit each of its tables. */
  datatype Ordered =
    | OScalar(scalar: Scalar)
    | OArray(items: seq<Ordered>)
    | OTable(fields: seq<Field>)

  datatype Field = Field(key: Bytes, value: Ordered)

  type Pairs = seq<(Bytes, Value)>

  /** Pairs written into a map one after another. */
  function ToMap(pairs: Pairs, acc: map<Bytes, Value>): map<Bytes, Value> {
    if pairs == [] then acc else ToMap(pairs[1..], acc[pairs[0].0 := pairs[0].1])
  }

  // ---------------------------------------------------------------- meaning

  /** The value itself, forgetting the order. */
  function Erase(o: Ordered): Value
    decreases o
  {
    match o
    case OScalar(s) => Scalar(s)
    case OArray(items) => Array(EraseItems(items))
    case OTable(fields) => Table(ToMap(ErasePairs(fields), map[]))
  }

  function EraseItems(items: seq<Ordered>): (r: seq<Value>)
    ensures |r| == |items|
    decreases items
  {
    if items == [] then [] else [Erase(items[0])] + EraseItems(items[1..])
  }

  function ErasePairs(fields: seq<Field>): (r: Pairs)
    ensures |r| == |fields|
    decreases fields
  {
    if fields == [] then [] else [(fields[0].key, Erase(fields[0].value))] + ErasePairs(fields[1..])
  }

  /** What a key becomes when its length does not fit one byte. */
  function Cut(key: Bytes): Bytes {
    key[..|key| % U8]
  }

  /** What survives the wire: keys cut to their length byte, times in whole seconds. */
  function Normal(o: Ordered): Value
    decreases o
  {
    match o
    case OScalar(Timestamp(t)) => Scalar(Timestamp(Time(t.sec, 0)))
    case OScalar(s) => Scalar(s)
    case OArray(items) => Array(NormalItems(items))
    case OTable(fields) => Table(ToMap(NormalPairs(fields), map[]))
  }

  function NormalItems(items: seq<Ordered>): (r: seq<Value>)
    ensures |r| == |items|
    decreases items
  {
    if items == [] then [] else [Normal(items[0])] + NormalItems(items[1..])
  }

  function NormalPairs(fields: seq<Field>): (r: Pairs)
    ensures |r| == |fields|
    decreases fields
  {
    if fields == [] then [] else [(Cut(fields[0].key), Normal(fields[0].value))] + NormalPairs(fields[1..])
  }

  // ---------------------------------------------------------------- writing

  function Letter(c: char): Byte
    requires c < 256 as char
  {
    c as int
  }

  /** A length in four bytes, its higher bits lost. */
  function Length32(s: Bytes): (b: Bytes)
    ensures |b| == 4
  {
    EncodeUint(|s| % U32, 4)
  }

  function EncodeScalar(s: Scalar): Bytes {
    match s
    case Bool(b) => [Letter('t'), if b then 1 else 0]
    case Octet(n) => [Letter('b'), n]
    case Short(n) => [Letter('s')] + EncodeUint(Unsigned(n, U16), 2)
    case Long(n) => [Letter('I')] + EncodeUint(Unsigned(n, U32), 4)
    case LongLong(n) => [Letter('l')] + EncodeUint(Unsigned(n, U64), 8)
    case Float(bits) => [Letter('f')] + EncodeUint(bits, 4)
    case Double(bits) => [Letter('d')] + EncodeUint(bits, 8)
    case Decimal(scale, value) => [Letter('D'), scale] + EncodeUint(Unsigned(value, U32), 4)
    case Text(s) => [Letter('S')] + Length32(s) + s
    case Blob(s) => [Letter('x')] + Length32(s) + s
    case Timestamp(t) => [Letter('T')] + EncodeUint(Unsigned(t.sec, U64), 8)
    case Nil => [Letter('V')]
  }

  function Encode(o: Ordered): Bytes
    decreases o
  {
    match o
    case OScalar(s) => EncodeScalar(s)
    case OArray(items) => [Letter('A')] + Length32(EncodeItems(items)) + EncodeItems(items)
    case OTable(fields) => [Letter('F')] + Prefixed(EncodeFields(fields), 4)
  }

  function EncodeItems(items: seq<Ordered>): Bytes
    decreases items
  {
    if items == [] then [] else Encode(items[0]) + EncodeItems(items[1..])
  }

  function EncodeFields(fields: seq<Field>): Bytes
    decreases fields
  {
    if fields == [] then [] else Prefixed(fields[0].key, 1) + Encode(fields[0].value) + EncodeFields(fields[1..])
  }

  // ---------------------------------------------------------------- reading

  function Then<T, U>(r: Read<T>, f: T -> U): (res: Read<U>)
    ensures res.rest == r.rest && (res.Got? <==> r.Got?)
    ensures r.Got? ==> res.value == f(r.value)
  {
    match r
    case Bad(fault, rest) => Bad(fault, rest)
    case Got(v, rest) => Got(f(v), rest)
  }

  /** A signed length: the program makes a slice of it and panics when it is negative. */
  function DecodeBlob(r: Bytes): (res: Read<Bytes>)
    ensures |res.rest| <= |r|
  {
    match ReadUint(r, 4)
    case Bad(fault, rest) => Bad(fault, rest)
    case Got(n, rest) => if Signed(n, U32) < 0 then Bad(Panic, rest) else ReadFull(rest, n)
  }

  function DecodeDecimal(r: Bytes): (res: Read<Scalar>)
    ensures |res.rest| <= |r|
  {
    match ReadUint(r, 1)
    case Bad(fault, rest) => Bad(fault, rest)
    case Got(scale, rest) =>
      match ReadUint(rest, 4)
      case Bad(fault, rest) => Bad(fault, rest)
      case Got(n, rest) => Got(Decimal(scale % U8, ToInt32(n)), rest)
  }

  function ToInt16(n: nat): Int16 { Signed(n % U16, U16) }
  function ToInt32(n: nat): Int32 { Signed(n % U32, U32) }
  function ToInt64(n: nat): Int64 { Signed(n % U64, U64) }

  /** A scalar after its type letter; an unknown letter is a syntax error. */
  function DecodeScalar(letter: Byte, r: Bytes): (res: Read<Scalar>)
    ensures |res.rest| <= |r|
  {
    if letter == Letter('t') then Then(ReadUint(r, 1), n => Bool(n != 0))
    else if letter == Letter('b') then Then(ReadUint(r, 1), (n: nat) => Octet(n % U8))
    else if letter == Letter('s') then Then(ReadUint(r, 2), n => Short(ToInt16(n)))
    else if letter == Letter('I') then Then(ReadUint(r, 4), n => Long(ToInt32(n)))
    else if letter == Letter('l') then Then(ReadUint(r, 8), n => LongLong(ToInt64(n)))
    else if letter == Letter('f') then Then(ReadUint(r, 4), (n: nat) => Float(n % U32))
    else if letter == Letter('d') then Then(ReadUint(r, 8), (n: nat) => Double(n % U64))
    else if letter == Letter('D') then DecodeDecimal(r)
    else if letter == Letter('S') then Then(ReadPrefixed(r, 4), s => Text(s))
    else if letter == Letter('T') then Then(ReadUint(r, 8), n => Timestamp(Time(ToInt64(n), 0)))
    else if letter == Letter('x') then Then(DecodeBlob(r), s => Blob(s))
    else if letter == Letter('V') then Got(Nil, r)
    else Bad(SyntaxError, r)
  }

  function DecodeField(r: Bytes): (res: Read<Value>)
    ensures |res.rest| <= |r| && (res.Got? ==> |res.rest| < |r|)
    decreases |r|, 0
  {
    match ReadFull(r, 1)
    case Bad(fault, rest) => Bad(fault, rest)
    case Got(typ, rest) =>
      if typ[0] == Letter('A') then DecodeArray(rest)
      else if typ[0] == Letter('F') then DecodeTable(rest)
      else Then(DecodeScalar(typ[0], rest), s => Scalar(s))
  }

  function DecodeTable(r: Bytes): (res: Read<Value>)
    ensures |res.rest| <= |r| && (res.Got? ==> res.value.Table?)
    decreases |r|, 2
  {
    match ReadPrefixed(r, 4)
    case Bad(fault, rest) => Bad(fault, rest)
    case Got(nested, rest) =>
      match DecodeFields(nested, map[])
      case Bad(fault, _) => Bad(fault, rest)
      case Got(fields, _) => Got(Table(fields), rest)
  }

  function DecodeFields(nested: Bytes, acc: map<Bytes, Value>): Read<map<Bytes, Value>>
    decreases |nested|, 1
  {
    if nested == [] then Got(acc, nested) else
      match ReadPrefixed(nested, 1)
      case Bad(fault, rest) => Bad(fault, rest)
      case Got(key, rest) =>
        match DecodeField(rest)
        case Bad(fault, rest) => Bad(fault, rest)
        case Got(value, rest) => DecodeFields(rest, acc[key := value])
  }

  /** The limited reader: at most `size` bytes, and whatever it leaves goes back in front of the rest. */
  function DecodeArray(r: Bytes): (res: Read<Value>)
    ensures |res.rest| <= |r|
    decreases |r|, 2
  {
    match ReadUint(r, 4)
    case Bad(fault, rest) => Bad(fault, rest)
    case Got(size, rest) =>
      var n := if size <= |rest| then size else |rest|;
      match DecodeItems(rest[..n], [])
      case Bad(fault, left) => Bad(fault, left + rest[n..])
      case Got(items, left) => Got(Array(items), left + rest[n..])
  }

  /** Any end of file ends the array, even one inside its last item. */
  function DecodeItems(lim: Bytes, acc: seq<Value>): (res: Read<seq<Value>>)
    ensures |res.rest| <= |lim|
    decreases |lim|, 1
  {
    match DecodeField(lim)
    case Bad(EOF, rest) => Got(acc, rest)
    case Bad(fault, rest) => Bad(fault, rest)
    case Got(item, rest) => DecodeItems(rest, acc + [item])
  }

  // ---------------------------------------------------------------- the round trip

  /** Every length fits its four bytes, at every depth. */
  predicate InRange(o: Ordered)
    decreases o
  {
    match o
    case OScalar(Text(s)) => |s| < U32
    case OScalar(Blob(s)) => |s| < U32
    case OScalar(_) => true
    case OArray(items) => |EncodeItems(items)| < U32 && InRangeItems(items)
    case OTable(fields) => |EncodeFields(fields)| < U32 && InRangeFields(fields)
  }

  predicate InRangeItems(items: seq<Ordered>)
    decreases items
  {
    items == [] || (InRange(items[0]) && InRangeItems(items[1..]))
  }

  predicate InRangeFields(fields: seq<Field>)
    decreases fields
  {
    fields == [] || (InRange(fields[0].value) && InRangeFields(fields[1..]))
  }

  predicate BlobFits(s: Scalar) {
    s.Blob? ==> |s.blob| < 0x8000_0000
  }

  /** No byte string anywhere inside is so long that its length reads as a negative number. */
  predicate BlobsFit(o: Ordered)
    decreases o
  {
    match o
    case OScalar(s) => BlobFits(s)
    case OArray(items) => BlobsFitItems(items)
    case OTable(fields) => BlobsFitFields(fields)
  }

  predicate BlobsFitItems(items: seq<Ordered>)
    decreases items
  {
    items == [] || (BlobsFit(items[0]) && BlobsFitItems(items[1..]))
  }

  predicate BlobsFitFields(fields: seq<Field>)
    decreases fields
  {
    fields == [] || (BlobsFit(fields[0].value) && BlobsFitFields(fields[1..]))
  }

  /** A read that ends in a panic. */
  predicate Panics<T>(res: Read<T>) {
    res.Bad? && res.fault == Panic
  }

  lemma LengthReadBack(s: Bytes, suffix: Bytes)
    ensures ReadUint(Length32(s) + (s + suffix), 4) == Got(|s| % U32, s + suffix)
  {
    hide EncodeUint, DecodeUint, ReadUint;
    Widths();
    UintReadBack(|s| % U32, 4, s + suffix);
  }

  /** What a length that has lost its higher bits finds: the first bytes, and the others in front of what follows. */
  lemma ShortRead(s: Bytes, n: nat, suffix: Bytes)
    requires n <= |s|
    ensures ReadFull(s + suffix, n) == Got(s[..n], s[n..] + suffix)
  {
    assert s + suffix == s[..n] + (s[n..] + suffix);
    FullRoundTrip(s[..n], s[n..] + suffix);
  }

  lemma BlobReadBack(s: Bytes, suffix: Bytes)
    ensures var n := |s| % U32;
            DecodeBlob(Length32(s) + s + suffix) ==
            if n >= 0x8000_0000 then Bad(Panic, s + suffix) else Got(s[..n], s[n..] + suffix)
  {
    hide Length32, ReadFull, ReadUint;
    assert Length32(s) + s + suffix == Length32(s) + (s + suffix);
    LengthReadBack(s, suffix);
    ShortRead(s, |s| % U32, suffix);
  }

  lemma TextReadBack(s: Bytes, suffix: Bytes)
    ensures var n := |s| % U32;
            ReadPrefixed(Length32(s) + s + suffix, 4) == Got(s[..n], s[n..] + suffix)
  {
    hide Length32, ReadFull, ReadUint;
    assert Length32(s) + s + suffix == Length32(s) + (s + suffix);
    LengthReadBack(s, suffix);
    ShortRead(s, |s| % U32, suffix);
  }

  lemma DecimalReadBack(scale: Byte, value: Int32, suffix: Bytes)
    ensures DecodeDecimal([scale] + EncodeUint(Unsigned(value, U32), 4) + suffix) == Got(Decimal(scale, value), suffix)
  {
    Widths();
    var n := EncodeUint(Unsigned(value, U32), 4);
    var b := [scale] + n + suffix;
    assert b[..1] == [scale] && b[1..] == n + suffix;
    assert [scale][..0] == [] && DecodeUint([scale]) == scale;
    UintReadBack(Unsigned(value, U32), 4, suffix);
    SignedRoundTrip(value, U32);
  }

  /** One integer field of `w` bytes. */
  lemma IntegerReadBack(n: int, w: nat, modulus: nat, suffix: Bytes)
    requires modulus == Pow256(w) && 0 <= 2 * n + modulus && 2 * n < modulus
    ensures var res := ReadUint(EncodeUint(Unsigned(n, modulus), w) + suffix, w);
            res.Got? && res.rest == suffix && Signed(res.value % modulus, modulus) == n
  {
    hide *;
    UintReadBack(UnsignedInRange(n, modulus), w, suffix);
    SignedRoundTrip(n, modulus);
  }

  function UnsignedInRange(n: int, modulus: nat): (u: nat)
    requires 0 <= 2 * n + modulus && 2 * n < modulus
    ensures u == Unsigned(n, modulus) && u < modulus && u % modulus == u
  {
    Unsigned(n, modulus)
  }

  function NormalScalar(s: Scalar): Scalar {
    if s.Timestamp? then Timestamp(Time(s.time.sec, 0)) else s
  }

  /**
   * What arrives of a scalar, whatever its length: a text or byte string is cut where its length modulo
   * 2^32 says, and a byte string whose length then reads as negative panics the reader.
   */
  function ScalarArrives(s: Scalar, suffix: Bytes): Read<Scalar> {
    match s
    case Text(t) => Got(Text(t[..|t| % U32]), t[|t| % U32..] + suffix)
    case Blob(t) =>
      if |t| % U32 >= 0x8000_0000 then Bad(Panic, t + suffix) else Got(Blob(t[..|t| % U32]), t[|t| % U32..] + suffix)
    case _ => Got(NormalScalar(s), suffix)
  }

  lemma ScalarReadBack(s: Scalar, suffix: Bytes)
    ensures DecodeScalar(EncodeScalar(s)[0], EncodeScalar(s)[1..] + suffix) == ScalarArrives(s, suffix)
  {
    hide EncodeScalar, DecodeScalar, ScalarArrives;
    if s.Text? || s.Blob? || s.Decimal? || s.Nil? {
      OtherReadBack(s, suffix);
    } else {
      NumberReadBack(s, suffix);
    }
  }

  lemma OtherReadBack(s: Scalar, suffix: Bytes)
    requires s.Text? || s.Blob? || s.Decimal? || s.Nil?
    ensures DecodeScalar(EncodeScalar(s)[0], EncodeScalar(s)[1..] + suffix) == ScalarArrives(s, suffix)
  {
    hide DecodeUint, EncodeUint, ReadUint, ReadFull, DecodeBlob, DecodeDecimal, ReadPrefixed, Length32;
    var payload := EncodeScalar(s)[1..];
    match s
    case Decimal(scale, value) =>
      DecimalReadBack(scale, value, suffix);
      assert payload == [scale] + EncodeUint(Unsigned(value, U32), 4);
    case Text(t) => TextReadBack(t, suffix); assert payload == Length32(t) + t;
    case Blob(t) => BlobReadBack(t, suffix); assert payload == Length32(t) + t;
    case Nil => assert payload + suffix == suffix;
  }

  lemma NumberReadBack(s: Scalar, suffix: Bytes)
    requires !s.Text? && !s.Blob? && !s.Decimal? && !s.Nil?
    ensures DecodeScalar(EncodeScalar(s)[0], EncodeScalar(s)[1..] + suffix) == ScalarArrives(s, suffix)
  {
    Widths();
    hide DecodeUint, EncodeUint, Pow256, ReadUint, ReadFull, DecodeBlob, DecodeDecimal, ReadPrefixed;
    var payload := EncodeScalar(s)[1..];
    match s
    case Bool(b) => OctetReadBack(if b then 1 else 0, suffix);
    case Octet(n) => OctetReadBack(n, suffix);
    case Short(n) => IntegerReadBack(n, 2, U16, suffix); assert payload == EncodeUint(Unsigned(n, U16), 2);
    case Long(n) => IntegerReadBack(n, 4, U32, suffix); assert payload == EncodeUint(Unsigned(n, U32), 4);
    case LongLong(n) => IntegerReadBack(n, 8, U64, suffix); assert payload == EncodeUint(Unsigned(n, U64), 8);
    case Float(bits) => UintReadBack(bits, 4, suffix); assert payload == EncodeUint(bits, 4);
    case Double(bits) => UintReadBack(bits, 8, suffix); assert payload == EncodeUint(bits, 8);
    case Timestamp(t) => IntegerReadBack(t.sec, 8, U64, suffix); assert payload == EncodeUint(Unsigned(t.sec, U64), 8);
  }

  lemma ScalarArrivesWhole(s: Scalar, suffix: Bytes)
    requires InRange(OScalar(s))
    ensures BlobFits(s) ==> ScalarArrives(s, suffix) == Got(NormalScalar(s), suffix)
    ensures !BlobFits(s) ==> Panics(ScalarArrives(s, suffix))
  {
    if s.Text? {
      WholeCut(s.text, suffix);
    } else if s.Blob? {
      WholeCut(s.blob, suffix);
    }
  }

  lemma WholeCut(s: Bytes, suffix: Bytes)
    requires |s| < U32
    ensures |s| % U32 == |s| && s[..|s|] == s && s[|s|..] + suffix == suffix
  {}

  lemma OctetReadBack(n: Byte, suffix: Bytes)
    ensures ReadUint([n] + suffix, 1) == Got(n, suffix)
  {
    FullRoundTrip([n], suffix);
    assert [n][..0] == [] && DecodeUint([n]) == n;
  }

  /**
   * Whatever is written, in whatever order, reads back as its normal form and leaves exactly what
   * follows, unless a byte string inside is too long: then the reader panics.
   */
  lemma {:induction false} FieldRoundTrip(o: Ordered, suffix: Bytes)
    requires InRange(o)
    ensures BlobsFit(o) ==> DecodeField(Encode(o) + suffix) == Got(Normal(o), suffix)
    ensures !BlobsFit(o) ==> Panics(DecodeField(Encode(o) + suffix))
    decreases o, 1
  {
    hide Length32, DecodeScalar, ScalarArrives, ReadUint, ReadPrefixed, Prefixed, BlobsFitItems, BlobsFitFields;
    hide InRangeItems, InRangeFields;
    var b := Encode(o) + suffix;
    assert b[..1] == [Encode(o)[0]] && b[1..] == Encode(o)[1..] + suffix;
    match o
    case OScalar(s) =>
      ScalarReadBack(s, suffix);
      ScalarArrivesWhole(s, suffix);
      NormalOfScalar(s);
    case OArray(items) =>
      assert Encode(o)[1..] == Length32(EncodeItems(items)) + EncodeItems(items);
      ArrayRoundTrip(items, suffix);
    case OTable(fields) =>
      assert Encode(o)[1..] == Prefixed(EncodeFields(fields), 4);
      TableRoundTrip(fields, suffix);
  }

  lemma NormalOfScalar(s: Scalar)
    ensures Normal(OScalar(s)) == Scalar(NormalScalar(s))
  {}

  lemma {:induction false} ArrayRoundTrip(items: seq<Ordered>, suffix: Bytes)
    requires |EncodeItems(items)| < U32 && InRangeItems(items)
    ensures var r := Length32(EncodeItems(items)) + EncodeItems(items) + suffix;
            && (BlobsFitItems(items) ==> DecodeArray(r) == Got(Array(NormalItems(items)), suffix))
            && (!BlobsFitItems(items) ==> Panics(DecodeArray(r)))
    decreases items, 1
  {
    hide Length32, ReadUint, EncodeItems, DecodeItems, BlobsFitItems, InRangeItems, NormalItems;
    var body := EncodeItems(items);
    assert Length32(body) + body + suffix == Length32(body) + (body + suffix);
    LengthReadBack(body, suffix);
    assert |body| % U32 == |body|;
    assert (body + suffix)[..|body|] == body && (body + suffix)[|body|..] == suffix;
    ItemsRoundTrip(items, []);
    assert [] + NormalItems(items) == NormalItems(items) && [] + suffix == suffix;
  }

  lemma NoItem()
    ensures DecodeField([]) == Bad(EOF, [])
  {}

  lemma {:induction false} ItemsRoundTrip(items: seq<Ordered>, acc: seq<Value>)
    requires InRangeItems(items)
    ensures BlobsFitItems(items) ==> DecodeItems(EncodeItems(items), acc) == Got(acc + NormalItems(items), [])
    ensures !BlobsFitItems(items) ==> Panics(DecodeItems(EncodeItems(items), acc))
    decreases items, 0
  {
    hide Encode, BlobsFit, InRange, Normal, DecodeField;
    if items == [] {
      NoItem();
      assert acc + NormalItems(items) == acc;
    } else {
      FieldRoundTrip(items[0], EncodeItems(items[1..]));
      if BlobsFit(items[0]) {
        var v := Normal(items[0]);
        ItemsRoundTrip(items[1..], acc + [v]);
        assert acc + [v] + NormalItems(items[1..]) == acc + NormalItems(items);
      }
    }
  }

  lemma {:induction false} TableRoundTrip(fields: seq<Field>, suffix: Bytes)
    requires |EncodeFields(fields)| < U32 && InRangeFields(fields)
    ensures var r := Prefixed(EncodeFields(fields), 4) + suffix;
            && (BlobsFitFields(fields) ==> DecodeTable(r) == Got(Table(ToMap(NormalPairs(fields), map[])), suffix))
            && (!BlobsFitFields(fields) ==> Panics(DecodeTable(r)))
    decreases fields, 1
  {
    hide Prefixed, ReadPrefixed, EncodeFields, DecodeFields, BlobsFitFields, InRangeFields, NormalPairs;
    var body := EncodeFields(fields);
    PrefixedReadBack(body, 4, suffix);
    assert body[..|body|] == body;
    FieldsRoundTrip(fields, map[]);
  }

  lemma {:induction false} FieldsRoundTrip(fields: seq<Field>, acc: map<Bytes, Value>)
    requires InRangeFields(fields)
    ensures BlobsFitFields(fields) ==> DecodeFields(EncodeFields(fields), acc) == Got(ToMap(NormalPairs(fields), acc), [])
    ensures !BlobsFitFields(fields) ==> Panics(DecodeFields(EncodeFields(fields), acc))
    decreases fields, 0
  {
    hide Encode, DecodeField, BlobsFit, InRange, Normal, Prefixed, ReadPrefixed;
    if fields != [] {
      var f, more := fields[0], EncodeFields(fields[1..]);
      assert EncodeFields(fields) == Prefixed(f.key, 1) + (Encode(f.value) + more);
      KeyReadBack(f.key, Encode(f.value) + more);
      FieldRoundTrip(f.value, more);
      if BlobsFit(f.value) {
        FieldsRoundTrip(fields[1..], acc[Cut(f.key) := Normal(f.value)]);
      }
    }
  }

  lemma KeyReadBack(key: Bytes, suffix: Bytes)
    ensures Prefixed(key, 1) + suffix != []
    ensures ReadPrefixed(Prefixed(key, 1) + suffix, 1) == Got(Cut(key), suffix)
  {
    PrefixedReadBack(key, 1, suffix);
  }

  // ---------------------------------------------------------------- the bytes themselves

  /** Each type has its letter; integers are two's complement, most significant byte first. */
  lemma ScalarOnTheWire(s: Scalar)
    ensures match s
            case Bool(b) => EncodeScalar(s) == [116, if b then 1 else 0]
            case Octet(n) => EncodeScalar(s) == [98, n]
            case Short(n) => var u := if n < 0 then n + 0x1_0000 else n; EncodeScalar(s) == [115] + Word(u)
            case Long(n) =>
              var u := if n < 0 then n + 0x1_0000_0000 else n;
              EncodeScalar(s) == [73] + Quad(u)
            case LongLong(n) =>
              |EncodeScalar(s)| == 9 && EncodeScalar(s)[0] == 108
              && DecodeUint(EncodeScalar(s)[1..]) == if n < 0 then n + 0x1_0000_0000_0000_0000 else n
            case Float(n) => EncodeScalar(s) == [102] + Quad(n)
            case Double(n) => |EncodeScalar(s)| == 9 && EncodeScalar(s)[0] == 100 && DecodeUint(EncodeScalar(s)[1..]) == n
            case Decimal(scale, n) =>
              var u := if n < 0 then n + 0x1_0000_0000 else n;
              EncodeScalar(s) == [68, scale] + Quad(u)
            case Text(t) => |t| < 0x1_0000_0000 ==> EncodeScalar(s) == [83] + Quad(|t|) + t
            case Blob(t) => |t| < 0x1_0000_0000 ==> EncodeScalar(s) == [120] + Quad(|t|) + t
            case Timestamp(t) =>
              |EncodeScalar(s)| == 9 && EncodeScalar(s)[0] == 84
              && DecodeUint(EncodeScalar(s)[1..]) == if t.sec < 0 then t.sec + 0x1_0000_0000_0000_0000 else t.sec
            case Nil => EncodeScalar(s) == [86]
  {
    hide EncodeUint, DecodeUint, Pow256, Quad, Word;
    match s
    case Short(n) => TwoBytes(Unsigned(n, U16));
    case Long(n) => FourBytes(Unsigned(n, U32));
    case LongLong(n) => EightBytes(s, Unsigned(n, U64));
    case Float(n) => FourBytes(n);
    case Double(n) => EightBytes(s, n);
    case Decimal(_, n) => FourBytes(Unsigned(n, U32));
    case Text(t) => FourBytes(|t| % U32);
    case Blob(t) => FourBytes(|t| % U32);
    case Timestamp(t) => EightBytes(s, Unsigned(t.sec, U64));
    case _ =>
  }

  lemma EightBytes(s: Scalar, n: nat)
    requires n < U64 && |EncodeScalar(s)| == 9 && EncodeScalar(s) == [EncodeScalar(s)[0]] + EncodeUint(n, 8)
    ensures DecodeUint(EncodeScalar(s)[1..]) == n
  {
    hide EncodeUint, DecodeUint, EncodeScalar;
    Widths();
    UintRoundTrip(n, 8);
    assert EncodeScalar(s)[1..] == EncodeUint(n, 8);
  }

  /** An array: its letter, the length of what is inside in four bytes, and its items one by one. */
  lemma ArrayOnTheWire(items: seq<Ordered>, b: Bytes)
    requires b == EncodeItems(items)
    ensures |b| < 0x1_0000_0000 ==> Encode(OArray(items)) == [65] + Quad(|b|) + b
    ensures b == if items == [] then [] else Encode(items[0]) + EncodeItems(items[1..])
  {
    hide EncodeUint, Quad;
    FourBytes(|b| % U32);
  }

  /** A table: its letter, the length in four bytes, and each key, a short string, with its value. */
  lemma TableOnTheWire(fields: seq<Field>, b: Bytes)
    requires b == EncodeFields(fields)
    ensures |b| < 0x1_0000_0000 ==> Encode(OTable(fields)) == [70] + Quad(|b|) + b
    ensures fields == [] ==> b == []
    ensures fields != [] && |fields[0].key| < 256 ==>
              b == [|fields[0].key|] + fields[0].key + Encode(fields[0].value) + EncodeFields(fields[1..])
  {
    TableIs(fields);
    hide EncodeUint, Quad, Prefixed, Encode, EncodeFields;
    LengthInFront(b);
    assert |b| < 0x1_0000_0000 ==> [70] + (Quad(|b|) + b) == [70] + Quad(|b|) + b;
    if fields != [] {
      LengthInFront(fields[0].key);
    }
  }

  lemma TableIs(fields: seq<Field>)
    ensures Encode(OTable(fields)) == [70] + Prefixed(EncodeFields(fields), 4)
    ensures EncodeFields(fields) ==
            if fields == [] then []
            else Prefixed(fields[0].key, 1) + Encode(fields[0].value) + EncodeFields(fields[1..])
  {
    hide Prefixed;
  }

  /** A nested value that was read, or failed, has taken its length. */
  lemma NestedAdvances(r: Bytes)
    ensures DecodeArray(r).Bad? && DecodeArray(r).fault == SyntaxError ==> |DecodeArray(r).rest| < |r|
    ensures DecodeTable(r).Bad? && DecodeTable(r).fault == SyntaxError ==> |DecodeTable(r).rest| < |r|
  {
    hide DecodeItems, DecodeFields;
  }

  const LETTERS: set<Byte> := {116, 98, 115, 73, 108, 102, 100, 68, 83, 65, 84, 70, 120, 86}

  /** A field is refused for its letter if and only if that is none of the fourteen. */
  lemma UnknownLetter(letter: Byte, r: Bytes)
    ensures DecodeField([letter] + r) == Bad(SyntaxError, r) <==> letter !in LETTERS
  {
    hide DecodeArray, DecodeTable;
    assert ([letter] + r)[..1] == [letter] && ([letter] + r)[1..] == r;
    NestedAdvances(r);
  }

  /** Any octet but zero is true. */
  lemma AnyOctetIsABool(n: Byte, r: Bytes)
    ensures DecodeField([116, n] + r) == Got(Scalar(Bool(n != 0)), r)
  {
    hide ReadUint;
    var b := [116, n] + r;
    assert b[..1] == [116] && b[1..] == [n] + r;
    OctetReadBack(n, r);
  }

  /** An array cut off between two of its items is taken for a shorter one: the end of the stream is not an error there. */
  lemma {:induction false} CutOffArray(items: seq<Ordered>, promised: UInt32)
    requires |EncodeItems(items)| <= promised && InRangeItems(items) && BlobsFitItems(items)
    ensures DecodeArray(EncodeUint(promised, 4) + EncodeItems(items)) == Got(Array(NormalItems(items)), [])
  {
    hide EncodeUint, ReadUint, EncodeItems, DecodeItems, NormalItems;
    Widths();
    var body := EncodeItems(items);
    UintReadBack(promised, 4, body);
    assert body[..|body|] == body && body[|body|..] == [] && body[|body|..] + body[|body|..] == [];
    ItemsRoundTrip(items, []);
    assert [] + NormalItems(items) == NormalItems(items);
  }

  // ---------------------------------------------------------------- what the round trip preserves

  predicate Distinct(fields: seq<Field>) {
    forall i, j :: 0 <= i < j < |fields| ==> fields[i].key != fields[j].key
  }

  /** No table visits a key twice: true of every order in which a map can be visited. */
  predicate DistinctKeys(o: Ordered)
    decreases o
  {
    match o
    case OScalar(_) => true
    case OArray(items) => forall i :: 0 <= i < |items| ==> DistinctKeys(items[i])
    case OTable(fields) => Distinct(fields) && forall i :: 0 <= i < |fields| ==> DistinctKeys(fields[i].value)
  }

  /** Keys under 256 bytes and times in whole seconds, at every depth. */
  predicate Faithful(o: Ordered)
    decreases o
  {
    match o
    case OScalar(Timestamp(t)) => t.nsec == 0
    case OScalar(_) => true
    case OArray(items) => forall i :: 0 <= i < |items| ==> Faithful(items[i])
    case OTable(fields) => forall i :: 0 <= i < |fields| ==> |fields[i].key| < U8 && Faithful(fields[i].value)
  }

  lemma {:induction false} ItemsAt(items: seq<Ordered>, i: nat)
    requires i < |items|
    ensures EraseItems(items)[i] == Erase(items[i])
    ensures NormalItems(items)[i] == Normal(items[i])
  {
    hide Erase, Normal;
    if i > 0 {
      ItemsAt(items[1..], i - 1);
    }
  }

  lemma {:induction false} PairsAt(fields: seq<Field>, i: nat)
    requires i < |fields|
    ensures ErasePairs(fields)[i] == (fields[i].key, Erase(fields[i].value))
    ensures NormalPairs(fields)[i] == (Cut(fields[i].key), Normal(fields[i].value))
  {
    hide Erase, Normal, Cut;
    if i > 0 {
      PairsAt(fields[1..], i - 1);
    }
  }

  predicate DistinctPairs(pairs: Pairs) {
    forall i, j :: 0 <= i < j < |pairs| ==> pairs[i].0 != pairs[j].0
  }

  /** A map built from pairs holds what was there before, except for the keys of the pairs. */
  lemma {:induction false} Untouched(pairs: Pairs, acc: map<Bytes, Value>, key: Bytes)
    requires forall i :: 0 <= i < |pairs| ==> pairs[i].0 != key
    ensures key in ToMap(pairs, acc) <==> key in acc
    ensures key in acc ==> ToMap(pairs, acc)[key] == acc[key]
  {
    if pairs != [] {
      assert pairs[0].0 != key;
      Untouched(pairs[1..], acc[pairs[0].0 := pairs[0].1], key);
    }
  }

  lemma {:induction false} Lookup(pairs: Pairs, acc: map<Bytes, Value>, i: nat)
    requires DistinctPairs(pairs) && i < |pairs|
    ensures pairs[i].0 in ToMap(pairs, acc) && ToMap(pairs, acc)[pairs[i].0] == pairs[i].1
  {
    if i == 0 {
      Untouched(pairs[1..], acc[pairs[0].0 := pairs[0].1], pairs[0].0);
    } else {
      Lookup(pairs[1..], acc[pairs[0].0 := pairs[0].1], i - 1);
    }
  }

  /** Reading back gives the very value that was written exactly when it is faithful. */
  lemma {:induction false} NormalIsErase(o: Ordered)
    requires DistinctKeys(o)
    ensures Normal(o) == Erase(o) <==> Faithful(o)
    decreases o
  {
    match o
    case OScalar(s) =>
    case OArray(items) =>
      forall i | 0 <= i < |items|
        ensures EraseItems(items)[i] == NormalItems(items)[i] <==> Faithful(items[i])
      {
        ItemsAt(items, i);
        NormalIsErase(items[i]);
      }
    case OTable(fields) =>
      forall i | 0 <= i < |fields|
        ensures Normal(fields[i].value) == Erase(fields[i].value) <==> Faithful(fields[i].value)
      {
        NormalIsErase(fields[i].value);
      }
      SamePairs(fields);
  }

  lemma SamePairs(fields: seq<Field>)
    requires Distinct(fields)
    ensures (forall i :: 0 <= i < |fields| ==> |fields[i].key| < U8 && Normal(fields[i].value) == Erase(fields[i].value)) <==>
            ToMap(NormalPairs(fields), map[]) == ToMap(ErasePairs(fields), map[])
  {
    hide Erase, Normal, NormalPairs, ErasePairs, ToMap, Cut;
    var n, e := NormalPairs(fields), ErasePairs(fields);
    forall i | 0 <= i < |fields|
      ensures e[i] == (fields[i].key, Erase(fields[i].value)) && n[i] == (Cut(fields[i].key), Normal(fields[i].value))
    {
      PairsAt(fields, i);
    }
    if i :| 0 <= i < |fields| && |fields[i].key| >= U8 {
      Lookup(e, map[], i);
      forall j | 0 <= j < |n| ensures n[j].0 != e[i].0 {
        CutIsShort(fields[j].key);
      }
      Untouched(n, map[], e[i].0);
    } else {
      forall j | 0 <= j < |fields| ensures n[j].0 == e[j].0 {
        CutIsShort(fields[j].key);
      }
      if i :| 0 <= i < |fields| && Normal(fields[i].value) != Erase(fields[i].value) {
        Lookup(e, map[], i);
        Lookup(n, map[], i);
      } else {
        assert n == e;
      }
    }
  }

  lemma CutIsShort(key: Bytes)
    ensures |Cut(key)| < U8
    ensures |key| < U8 ==> Cut(key) == key
  {}
}
