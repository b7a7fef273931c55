/**
 * Which tables can come off the wire at all, and so which come back as they were sent, with no
 * assumption on any length (streadway/amqp write.go and read.go).
 */
module TableImage {
  import opened Wire
  import opened Tables
  import opened TableIO
  import Sums

  /** The bytes a value takes, as a property of the value: no order of its tables matters. */
  ghost function Size(v: Value): real
    decreases v, 0
  {
    match v
    case Scalar(s) => |EncodeScalar(s)| as real
    case Array(items) => 5.0 + SizeItems(items)
    case Table(fields) => 5.0 + Sums.Total(map k | k in fields :: FieldSize(k, fields[k]))
    case Unsupported => 0.0
  }

  /** A field with its key. */
  ghost function FieldSize(key: Bytes, v: Value): real
    decreases v, 1
  {
    1.0 + |key| as real + Size(v)
  }

  ghost function SizeItems(items: seq<Value>): real
    decreases items
  {
    if items == [] then 0.0 else SizeItems(items[..|items| - 1]) + Size(items[|items| - 1])
  }

  ghost function Sizes(fields: map<Bytes, Value>): map<Bytes, real> {
    map k | k in fields :: FieldSize(k, fields[k])
  }

  predicate FitsScalar(s: Scalar) {
    match s
    case Text(t) => |t| < U32
    case Blob(t) => |t| < 0x8000_0000
    case Timestamp(t) => t.nsec == 0
    case _ => true
  }

  /** What a reader can produce: short keys, whole seconds, and every length within its prefix. */
  ghost predicate Fits(v: Value)
    decreases v
  {
    match v
    case Scalar(s) => FitsScalar(s)
    case Array(items) => SizeItems(items) < U32 as real && forall i :: 0 <= i < |items| ==> Fits(items[i])
    case Table(fields) => FieldsFit(fields) && Sums.Total(Sizes(fields)) < U32 as real && forall k :: k in fields ==> Fits(fields[k])
    case Unsupported => false
  }

  predicate FieldsFit(fields: map<Bytes, Value>) {
    forall k :: k in fields ==> |k| < U8
  }

  lemma {:induction false} SizeIsPositive(v: Value)
    ensures Size(v) >= 0.0
    decreases v, 1
  {
    hide Sums.Total, EncodeScalar;
    match v
    case Scalar(_) =>
    case Array(items) => SizesArePositive(items);
    case Table(fields) =>
      forall k | k in fields ensures Size(fields[k]) >= 0.0 {
        SizeIsPositive(fields[k]);
      }
      Sums.TotalNonNegative(map k | k in fields :: FieldSize(k, fields[k]));
    case Unsupported =>
  }

  lemma {:induction false} SizesArePositive(items: seq<Value>)
    ensures SizeItems(items) >= 0.0
    decreases items, 0
  {
    if items != [] {
      SizesArePositive(items[..|items| - 1]);
      SizeIsPositive(items[|items| - 1]);
    }
  }

  lemma SizeOfTable(fields: map<Bytes, Value>)
    ensures Size(Table(fields)) == 5.0 + Sums.Total(Sizes(fields))
  {}

  /** Writing a field adds at most its bytes: it may replace one with the same key. */
  lemma SizesAfterUpdate(fields: map<Bytes, Value>, key: Bytes, v: Value)
    ensures Sums.Total(Sizes(fields[key := v])) <= Sums.Total(Sizes(fields)) + 1.0 + |key| as real + Size(v)
    ensures key !in fields ==> Sums.Total(Sizes(fields[key := v])) == Sums.Total(Sizes(fields)) + 1.0 + |key| as real + Size(v)
  {
    SizesUpdated(fields, key, v);
    if key in fields {
      SizeIsPositive(fields[key]);
      assert FieldSize(key, fields[key]) >= 0.0;
    }
    hide Sums.Total, Size, Sizes;
    Sums.TotalUpdate(Sizes(fields), key, FieldSize(key, v));
  }

  lemma SizesUpdated(fields: map<Bytes, Value>, key: Bytes, v: Value)
    ensures Sizes(fields[key := v]) == Sizes(fields)[key := FieldSize(key, v)]
    ensures key in Sizes(fields) <==> key in fields
    ensures key in fields ==> Sizes(fields)[key] == FieldSize(key, fields[key])
  {
    hide FieldSize;
  }

  // ---------------------------------------------------------------- what a reader produces

  /** A scalar that was read fits, and took as many bytes, with its letter, as it takes to write it. */
  lemma DecodedScalarFits(letter: Byte, r: Bytes)
    ensures var res := DecodeScalar(letter, r);
            res.Got? ==> FitsScalar(res.value) && |EncodeScalar(res.value)| == 1 + |r| - |res.rest|
  {
    hide EncodeUint, DecodeUint, ReadFull, ReadUint, ReadPrefixed, DecodeBlob, DecodeDecimal;
    ShortReads(r);
    BlobReads(r);
    DecimalReads(r);
  }

  lemma ShortReads(r: Bytes)
    ensures var res := ReadPrefixed(r, 4); res.Got? ==> |res.value| < U32 && |res.value| + 4 + |res.rest| == |r|
    ensures var res := ReadPrefixed(r, 1); res.Got? ==> |res.value| < U8 && |res.value| + 1 + |res.rest| == |r|
  {
    hide EncodeUint, DecodeUint;
    Widths();
    if |r| >= 4 {
      DecodedBelow(r[..4]);
    }
    if |r| >= 1 {
      DecodedBelow(r[..1]);
    }
  }

  lemma {:induction false} DecodedBelow(b: Bytes)
    ensures DecodeUint(b) < Pow256(|b|)
  {
    if b != [] {
      DecodedBelow(b[..|b| - 1]);
    }
  }

  lemma BlobReads(r: Bytes)
    ensures var res := DecodeBlob(r); res.Got? ==> |res.value| < 0x8000_0000 && |res.value| + 4 + |res.rest| == |r|
  {
    hide EncodeUint, DecodeUint;
    Widths();
    if |r| >= 4 {
      DecodedBelow(r[..4]);
    }
  }

  lemma DecimalReads(r: Bytes)
    ensures var res := DecodeDecimal(r); res.Got? ==> res.value.Decimal? && 5 + |res.rest| == |r|
  {
    hide EncodeUint, DecodeUint, ReadFull;
  }

  lemma {:induction false} DecodedFieldFits(r: Bytes)
    ensures var res := DecodeField(r);
            res.Got? ==> Fits(res.value) && Size(res.value) <= (|r| - |res.rest|) as real
    decreases |r|, 0
  {
    hide DecodeScalar, DecodeTable, DecodeArray, EncodeScalar, FitsScalar;
    if r != [] {
      var rest := r[1..];
      DecodedScalarFits(r[0], rest);
      DecodedTableFits(rest);
      DecodedArrayFits(rest);
    }
  }

  lemma {:induction false} DecodedTableFits(r: Bytes)
    ensures var res := DecodeTable(r);
            res.Got? ==> Fits(res.value) && Size(res.value) <= (1 + |r| - |res.rest|) as real
    decreases |r|, 2
  {
    hide ReadPrefixed, DecodeFields, Sums.Total;
    var str := ReadPrefixed(r, 4);
    ShortReads(r);
    if str.Got? {
      DecodedFieldsFit(str.value, map[]);
      NoFieldsSize();
      var res := DecodeFields(str.value, map[]);
      if res.Got? {
        SizeOfTable(res.value);
      }
    }
  }

  lemma NoFieldsSize()
    ensures Sums.Total(Sizes(map[])) == 0.0
  {
    assert Sizes(map[]) == map[];
  }

  lemma {:induction false} DecodedFieldsFit(nested: Bytes, acc: map<Bytes, Value>)
    requires FieldsFit(acc) && forall k :: k in acc ==> Fits(acc[k])
    ensures var res := DecodeFields(nested, acc);
            res.Got? ==> FieldsFit(res.value) && (forall k :: k in res.value ==> Fits(res.value[k]))
                         && Sums.Total(Sizes(res.value)) <= Sums.Total(Sizes(acc)) + |nested| as real
    decreases |nested|, 1
  {
    hide ReadPrefixed, DecodeField, Sums.Total, Fits, Size, Sizes;
    if nested != [] {
      var key := ReadPrefixed(nested, 1);
      ShortReads(nested);
      if key.Got? {
        var value := DecodeField(key.rest);
        DecodedFieldFits(key.rest);
        if value.Got? {
          SizesAfterUpdate(acc, key.value, value.value);
          DecodedFieldsFit(value.rest, acc[key.value := value.value]);
        }
      }
    }
  }

  lemma {:induction false} DecodedArrayFits(r: Bytes)
    ensures var res := DecodeArray(r);
            res.Got? ==> Fits(res.value) && Size(res.value) <= (1 + |r| - |res.rest|) as real
    decreases |r|, 2
  {
    hide DecodeItems, DecodeUint;
    Widths();
    if |r| >= 4 {
      DecodedBelow(r[..4]);
      var size, rest := DecodeUint(r[..4]), r[4..];
      var n := if size <= |rest| then size else |rest|;
      DecodedItemsFit(rest[..n], []);
    }
  }

  lemma {:induction false} DecodedItemsFit(lim: Bytes, acc: seq<Value>)
    requires forall i :: 0 <= i < |acc| ==> Fits(acc[i])
    ensures var res := DecodeItems(lim, acc);
            res.Got? ==> (forall i :: 0 <= i < |res.value| ==> Fits(res.value[i]))
                         && SizeItems(res.value) <= SizeItems(acc) + (|lim| - |res.rest|) as real
    decreases |lim|, 1
  {
    hide DecodeField, Fits, Size;
    var item := DecodeField(lim);
    DecodedFieldFits(lim);
    if item.Got? {
      assert (acc + [item.value])[..|acc|] == acc;
      DecodedItemsFit(item.rest, acc + [item.value]);
    }
  }

  // ---------------------------------------------------------------- the same of what was written

  /** Everything the wire asks of a value: lengths within their prefixes, short keys, whole seconds. */
  predicate Good(o: Ordered) {
    InRange(o) && BlobsFit(o) && Faithful(o)
  }

  lemma {:induction false} GoodItems(items: seq<Ordered>)
    ensures Good(OArray(items)) <==> |EncodeItems(items)| < U32 && forall i :: 0 <= i < |items| ==> Good(items[i])
  {
    InRangeAt(items);
    BlobsFitAt(items);
    hide EncodeItems;
  }

  lemma {:induction false} InRangeAt(items: seq<Ordered>)
    ensures InRangeItems(items) <==> forall i :: 0 <= i < |items| ==> InRange(items[i])
  {
    hide InRange;
    if items != [] {
      InRangeAt(items[1..]);
      assert forall i :: 0 < i < |items| ==> items[i] == items[1..][i - 1];
    }
  }

  lemma {:induction false} BlobsFitAt(items: seq<Ordered>)
    ensures BlobsFitItems(items) <==> forall i :: 0 <= i < |items| ==> BlobsFit(items[i])
  {
    hide BlobsFit;
    if items != [] {
      BlobsFitAt(items[1..]);
      assert forall i :: 0 < i < |items| ==> items[i] == items[1..][i - 1];
    }
  }

  lemma {:induction false} GoodFields(fields: seq<Field>)
    ensures Good(OTable(fields)) <==>
            |EncodeFields(fields)| < U32 && forall i :: 0 <= i < |fields| ==> |fields[i].key| < U8 && Good(fields[i].value)
  {
    InRangeFieldAt(fields);
    BlobsFitFieldAt(fields);
    hide EncodeFields;
  }

  lemma {:induction false} InRangeFieldAt(fields: seq<Field>)
    ensures InRangeFields(fields) <==> forall i :: 0 <= i < |fields| ==> InRange(fields[i].value)
  {
    hide InRange;
    if fields != [] {
      InRangeFieldAt(fields[1..]);
      assert forall i :: 0 < i < |fields| ==> fields[i] == fields[1..][i - 1];
    }
  }

  lemma {:induction false} BlobsFitFieldAt(fields: seq<Field>)
    ensures BlobsFitFields(fields) <==> forall i :: 0 <= i < |fields| ==> BlobsFit(fields[i].value)
  {
    hide BlobsFit;
    if fields != [] {
      BlobsFitFieldAt(fields[1..]);
      assert forall i :: 0 < i < |fields| ==> fields[i] == fields[1..][i - 1];
    }
  }

  /** A value was good to write, in whatever order, exactly if a reader could produce it. */
  lemma {:induction false} GoodIsFitting(o: Ordered)
    requires DistinctKeys(o)
    ensures Good(o) <==> Fits(Erase(o))
    ensures Good(o) ==> |Encode(o)| as real == Size(Erase(o))
    decreases o
  {
    match o
    case OScalar(s) =>
      hide EncodeScalar;
    case OArray(items) =>
      GoodItems(items);
      forall i | 0 <= i < |items|
        ensures EraseItems(items)[i] == Erase(items[i])
        ensures Good(items[i]) <==> Fits(EraseItems(items)[i])
        ensures Good(items[i]) ==> |Encode(items[i])| as real == Size(Erase(items[i]))
      {
        GoodIsFitting(items[i]);
        ItemsAt(items, i);
      }
      ArrayIsFitting(items);
    case OTable(fields) =>
      GoodFields(fields);
      forall i | 0 <= i < |fields|
        ensures Good(fields[i].value) <==> Fits(Erase(fields[i].value))
        ensures Good(fields[i].value) ==> |Encode(fields[i].value)| as real == Size(Erase(fields[i].value))
      {
        GoodIsFitting(fields[i].value);
      }
      TableIsFitting(fields);
  }

  lemma ArrayIsFitting(items: seq<Ordered>)
    requires Good(OArray(items)) <==> |EncodeItems(items)| < U32 && forall i :: 0 <= i < |items| ==> Good(items[i])
    requires forall i :: 0 <= i < |items| ==> EraseItems(items)[i] == Erase(items[i])
    requires forall i :: 0 <= i < |items| ==> (Good(items[i]) <==> Fits(EraseItems(items)[i]))
    requires forall i :: 0 <= i < |items| && Good(items[i]) ==> |Encode(items[i])| as real == Size(Erase(items[i]))
    ensures Good(OArray(items)) <==> Fits(Array(EraseItems(items)))
    ensures Good(OArray(items)) ==> |Encode(OArray(items))| as real == Size(Array(EraseItems(items)))
  {
    hide Good, EncodeItems, EraseItems, Erase, SizeItems;
    if forall i :: 0 <= i < |items| ==> Good(items[i]) {
      ItemsSize(items);
    }
  }

  lemma {:induction false} ItemsSize(items: seq<Ordered>)
    requires forall i :: 0 <= i < |items| ==> |Encode(items[i])| as real == Size(Erase(items[i]))
    ensures |EncodeItems(items)| as real == SizeItems(EraseItems(items))
  {
    hide Encode, Size, Erase;
    if items != [] {
      var front, last := items[..|items| - 1], items[|items| - 1];
      ItemsSize(front);
      ItemsGrow(front, last);
      assert items == front + [last] && EraseItems(items)[..|front|] == EraseItems(front);
    }
  }

  lemma TableIsFitting(fields: seq<Field>)
    requires Distinct(fields)
    requires Good(OTable(fields)) <==>
             |EncodeFields(fields)| < U32 && forall i :: 0 <= i < |fields| ==> |fields[i].key| < U8 && Good(fields[i].value)
    requires forall i :: 0 <= i < |fields| ==> (Good(fields[i].value) <==> Fits(Erase(fields[i].value)))
    requires forall i :: 0 <= i < |fields| && Good(fields[i].value) ==>
               |Encode(fields[i].value)| as real == Size(Erase(fields[i].value))
    ensures Good(OTable(fields)) <==> Fits(Erase(OTable(fields)))
    ensures Good(OTable(fields)) ==> |Encode(OTable(fields))| as real == Size(Erase(OTable(fields)))
  {
    hide Good, EncodeFields, ErasePairs, ToMap, Sums.Total, Sizes, Prefixed;
    var m := ToMap(ErasePairs(fields), map[]);
    FieldsOf(fields);
    if forall i :: 0 <= i < |fields| ==> |fields[i].key| < U8 && Good(fields[i].value) {
      FieldsSize(fields);
      SizeOfTable(m);
      if |EncodeFields(fields)| < U32 {
        PrefixedLength(EncodeFields(fields));
      }
    } else {
      var i :| 0 <= i < |fields| && !(|fields[i].key| < U8 && Good(fields[i].value));
      assert fields[i].key in m && m[fields[i].key] == Erase(fields[i].value);
    }
  }

  lemma PrefixedLength(body: Bytes)
    requires |body| < U32
    ensures |Prefixed(body, 4)| == 4 + |body|
  {}

  /** The map holds the fields, and nothing else. */
  lemma FieldsOf(fields: seq<Field>)
    requires Distinct(fields)
    ensures var m := ToMap(ErasePairs(fields), map[]);
            && (forall i :: 0 <= i < |fields| ==> fields[i].key in m && m[fields[i].key] == Erase(fields[i].value))
            && (forall k :: k in m ==> exists i :: 0 <= i < |fields| && fields[i].key == k)
  {
    hide Erase, ToMap, ErasePairs;
    var e := ErasePairs(fields);
    var m := ToMap(e, map[]);
    forall i | 0 <= i < |fields| ensures e[i] == (fields[i].key, Erase(fields[i].value)) {
      PairsAt(fields, i);
    }
    forall i | 0 <= i < |fields| ensures fields[i].key in m && m[fields[i].key] == Erase(fields[i].value) {
      Lookup(e, map[], i);
    }
    forall k | k in m ensures exists i :: 0 <= i < |fields| && fields[i].key == k {
      if forall i :: 0 <= i < |fields| ==> fields[i].key != k {
        Untouched(e, map[], k);
      }
    }
  }

  lemma {:induction false} FieldsSize(fields: seq<Field>)
    requires Distinct(fields)
    requires forall i :: 0 <= i < |fields| ==>
               |fields[i].key| < U8 && |Encode(fields[i].value)| as real == Size(Erase(fields[i].value))
    ensures |EncodeFields(fields)| as real == Sums.Total(Sizes(ToMap(ErasePairs(fields), map[])))
  {
    hide Encode, Size, Erase, EncodeFields, ErasePairs, ToMap, Sums.Total, Sizes, Prefixed;
    if fields == [] {
      NoFields();
      NoFieldsSize();
    } else {
      var front, f := fields[..|fields| - 1], fields[|fields| - 1];
      assert fields == front + [f];
      FieldsSize(front);
      FieldsGrow(front, f);
      FieldsOf(front);
      SizesAfterUpdate(ToMap(ErasePairs(front), map[]), f.key, Erase(f.value));
      ShortPrefixedLength(f.key);
    }
  }

  lemma ShortPrefixedLength(key: Bytes)
    requires |key| < U8
    ensures |Prefixed(key, 1)| == 1 + |key|
  {}

  // ---------------------------------------------------------------- the law, on every value

  /** Any value at all comes back as it was sent, with what follows untouched, if and only if it is good. */
  lemma {:induction false} FieldComesBack(o: Ordered, suffix: Bytes)
    requires DistinctKeys(o)
    ensures DecodeField(Encode(o) + suffix) == Got(Erase(o), suffix) <==> Good(o)
  {
    hide DecodeField, Encode, Erase, InRange, BlobsFit, Faithful, Fits;
    if Good(o) {
      FieldRoundTrip(o, suffix);
      NormalIsErase(o);
    } else {
      DecodedFieldFits(Encode(o) + suffix);
      GoodIsFitting(o);
    }
  }

  /** The same of a table on its own. */
  lemma {:induction false} TableComesBack(fields: seq<Field>, suffix: Bytes)
    requires DistinctKeys(OTable(fields))
    ensures DecodeTable(Prefixed(EncodeFields(fields), 4) + suffix) == Got(Erase(OTable(fields)), suffix) <==> Good(OTable(fields))
  {
    hide DecodeTable, Encode, Erase, DistinctKeys, Fits, InRangeFields, BlobsFitFields, Faithful;
    if Good(OTable(fields)) {
      TableSurvives(fields, suffix);
    } else {
      DecodedTableFits(Prefixed(EncodeFields(fields), 4) + suffix);
      GoodIsFitting(OTable(fields));
    }
  }

  lemma TableSurvives(fields: seq<Field>, suffix: Bytes)
    requires DistinctKeys(OTable(fields)) && Good(OTable(fields))
    ensures DecodeTable(Prefixed(EncodeFields(fields), 4) + suffix) == Got(Erase(OTable(fields)), suffix)
  {
    hide DecodeTable, Prefixed, EncodeFields, InRangeFields, BlobsFitFields, DistinctKeys, Faithful;
    TableRoundTrip(fields, suffix);
    NormalIsErase(OTable(fields));
  }

  /** Two runs that visit the same table differently may send different bytes, but they are read alike. */
  lemma {:induction false} OrderDoesNotMatter(o: Ordered, p: Ordered, suffix: Bytes)
    requires Erase(o) == Erase(p) && DistinctKeys(o) && DistinctKeys(p) && Good(o)
    ensures Good(p) && |Encode(p)| == |Encode(o)| && DecodeField(Encode(o) + suffix) == DecodeField(Encode(p) + suffix)
  {
    hide *;
    GoodIsFitting(o);
    GoodIsFitting(p);
    FieldComesBack(o, suffix);
    FieldComesBack(p, suffix);
  }
}
