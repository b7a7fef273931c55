/** Writing and reading field tables step by step (streadway/amqp write.go, read.go and types.go). */
module TableIO {
  import opened Wire
  import opened Tables

  /** A buffer that bytes are appended to. */
  class Buffer {
    var bytes: Bytes

    constructor ()
      ensures bytes == []
    {
      bytes := [];
    }

    method Write(b: Bytes)
      modifies this
      ensures bytes == old(bytes) + b
    {
      bytes := bytes + b;
    }
  }

  /** A stream that bytes are consumed from; only what is left of it is remembered. */
  class Source {
    var rest: Bytes

    constructor (bytes: Bytes)
      ensures rest == bytes
    {
      rest := bytes;
    }

    method Full(n: nat) returns (res: Read<Bytes>)
      modifies this
      ensures res == ReadFull(old(rest), n) && rest == res.rest
    {
      res := ReadFull(rest, n);
      rest := res.rest;
    }

    method Uint(w: nat) returns (res: Read<nat>)
      modifies this
      ensures res == ReadUint(old(rest), w) && rest == res.rest
    {
      var b := Full(w);
      if b.Bad? {
        return Bad(b.fault, b.rest);
      }
      return Got(DecodeUint(b.value), b.rest);
    }

    method String(w: nat) returns (res: Read<Bytes>)
      modifies this
      ensures res == ReadPrefixed(old(rest), w) && rest == res.rest
    {
      var n := Uint(w);
      if n.Bad? {
        return Bad(n.fault, n.rest);
      }
      res := Full(n.value);
    }
  }

  // ---------------------------------------------------------------- validation

  /** The values that have a type letter, at every depth. */
  predicate ValidateField(f: Value)
    decreases f
  {
    match f
    case Scalar(_) => true
    case Array(items) => forall i :: 0 <= i < |items| ==> ValidateField(items[i])
    case Table(fields) => forall k :: k in fields ==> ValidateField(fields[k])
    case Unsupported => false
  }

  // ---------------------------------------------------------------- writing

  method WriteShortstr(w: Buffer, s: Bytes)
    modifies w
    ensures w.bytes == old(w.bytes) + Prefixed(s, 1)
  {
    hide EncodeUint;
    var length := |s| % U8;
    w.Write(EncodeUint(length, 1));
    w.Write(s[..length]);
    assert Prefixed(s, 1) == EncodeUint(length, 1) + s[..length];
  }

  method WriteLongstr(w: Buffer, s: Bytes)
    modifies w
    ensures w.bytes == old(w.bytes) + Prefixed(s, 4)
  {
    hide EncodeUint;
    var length := |s| % U32;
    w.Write(EncodeUint(length, 4));
    w.Write(s[..length]);
    assert Prefixed(s, 4) == EncodeUint(length, 4) + s[..length];
  }

  /**
   * Writing a value succeeds exactly when the value validates. What is then appended is the encoding
   * of the value in the order `o` in which this run happened to visit its tables.
   */
  method WriteField(w: Buffer, value: Value) returns (ok: bool, ghost o: Ordered)
    modifies w
    ensures old(w.bytes) <= w.bytes
    ensures ok <==> ValidateField(value)
    ensures ok ==> Erase(o) == value && DistinctKeys(o) && w.bytes == old(w.bytes) + Encode(o)
    decreases value, 1
  {
    hide EncodeScalar, EncodeItems, EncodeFields, Prefixed, Length32, EraseItems, ErasePairs, ToMap;
    ok, o := true, OScalar(Nil);
    match value
    case Scalar(s) =>
      o := OScalar(s);
      w.Write(EncodeScalar(s));
    case Array(items) =>
      var sec := new Buffer();
      ghost var visited;
      ok, visited := WriteItems(sec, items);
      if !ok {
        return;
      }
      o := OArray(visited);
      w.Write([Letter('A')] + Length32(sec.bytes));
      w.Write(sec.bytes);
      assert w.bytes == old(w.bytes) + Encode(o);
    case Table(_) =>
      w.Write([Letter('F')]);
      ghost var visited;
      ok, visited := WriteTable(w, value);
      o := OTable(visited);
      if ok {
        assert w.bytes == old(w.bytes) + Encode(o);
      }
    case Unsupported =>
      ok := false;
  }

  method WriteItems(sec: Buffer, items: seq<Value>) returns (ok: bool, ghost visited: seq<Ordered>)
    requires sec.bytes == []
    modifies sec
    ensures ok <==> forall i :: 0 <= i < |items| ==> ValidateField(items[i])
    ensures ok ==> EraseItems(visited) == items && sec.bytes == EncodeItems(visited)
    ensures ok ==> forall i :: 0 <= i < |visited| ==> DistinctKeys(visited[i])
    decreases items, 0
  {
    hide Encode, Erase, DistinctKeys, ValidateField;
    ok, visited := true, [];
    for i := 0 to |items|
      invariant forall j :: 0 <= j < i ==> ValidateField(items[j])
      invariant EraseItems(visited) == items[..i] && sec.bytes == EncodeItems(visited)
      invariant forall j :: 0 <= j < |visited| ==> DistinctKeys(visited[j])
    {
      ghost var o;
      ok, o := WriteField(sec, items[i]);
      if !ok {
        return;
      }
      ItemsGrow(visited, o);
      visited := visited + [o];
    }
  }

  /** The map is visited in an order nothing decides. */
  method WriteTable(w: Buffer, value: Value) returns (ok: bool, ghost visited: seq<Field>)
    requires value.Table?
    modifies w
    ensures old(w.bytes) <= w.bytes
    ensures ok <==> forall k :: k in value.fields ==> ValidateField(value.fields[k])
    ensures ok ==> ToMap(ErasePairs(visited), map[]) == value.fields && DistinctKeys(OTable(visited))
    ensures ok ==> w.bytes == old(w.bytes) + Prefixed(EncodeFields(visited), 4)
    decreases value, 0
  {
    hide Encode, Erase, ValidateField, EncodeFields, Prefixed, ToMap, ErasePairs;
    var table := value.fields;
    var buf := new Buffer();
    ok, visited := true, [];
    var keys := table.Keys;
    ghost var done: map<Bytes, Value> := map[];
    NoFields();
    while keys != {}
      invariant keys <= table.Keys
      invariant done.Keys == table.Keys - keys && forall k :: k in done ==> done[k] == table[k] && ValidateField(table[k])
      invariant forall i :: 0 <= i < |visited| ==> visited[i].key in done
      invariant ToMap(ErasePairs(visited), map[]) == done && DistinctKeys(OTable(visited))
      invariant buf.bytes == EncodeFields(visited) && w.bytes == old(w.bytes)
    {
      var key :| key in keys;
      keys := keys - {key};
      WriteShortstr(buf, key);
      ghost var o;
      ok, o := WriteField(buf, table[key]);
      if !ok {
        return;
      }
      FieldsGrow(visited, Field(key, o));
      visited := visited + [Field(key, o)];
      done := done[key := table[key]];
    }
    assert done == table;
    WriteLongstr(w, buf.bytes);
  }

  lemma NoFields()
    ensures ToMap(ErasePairs([]), map[]) == map[] && EncodeFields([]) == []
  {}

  lemma {:induction false} ItemsGrow(items: seq<Ordered>, o: Ordered)
    ensures EraseItems(items + [o]) == EraseItems(items) + [Erase(o)]
    ensures EncodeItems(items + [o]) == EncodeItems(items) + Encode(o)
  {
    hide Erase, Encode;
    if items == [] {
      assert items + [o] == [o];
    } else {
      assert (items + [o])[1..] == items[1..] + [o];
      ItemsGrow(items[1..], o);
    }
  }

  lemma {:induction false} FieldsGrow(fields: seq<Field>, f: Field)
    ensures EncodeFields(fields + [f]) == EncodeFields(fields) + Prefixed(f.key, 1) + Encode(f.value)
    ensures ToMap(ErasePairs(fields + [f]), map[]) == ToMap(ErasePairs(fields), map[])[f.key := Erase(f.value)]
  {
    hide Erase, Encode, Prefixed, ToMap;
    EncodingGrows(fields, f);
    PairsGrow(fields, f);
    ToMapGrows(ErasePairs(fields), (f.key, Erase(f.value)), map[]);
  }

  lemma {:induction false} EncodingGrows(fields: seq<Field>, f: Field)
    ensures EncodeFields(fields + [f]) == EncodeFields(fields) + Prefixed(f.key, 1) + Encode(f.value)
  {
    hide Encode, Prefixed;
    if fields == [] {
      assert fields + [f] == [f];
    } else {
      assert (fields + [f])[1..] == fields[1..] + [f];
      EncodingGrows(fields[1..], f);
    }
  }

  lemma {:induction false} PairsGrow(fields: seq<Field>, f: Field)
    ensures ErasePairs(fields + [f]) == ErasePairs(fields) + [(f.key, Erase(f.value))]
  {
    hide Erase;
    if fields == [] {
      assert fields + [f] == [f];
    } else {
      assert (fields + [f])[1..] == fields[1..] + [f];
      PairsGrow(fields[1..], f);
    }
  }

  lemma {:induction false} ToMapGrows(pairs: Pairs, p: (Bytes, Value), acc: map<Bytes, Value>)
    ensures ToMap(pairs + [p], acc) == ToMap(pairs, acc)[p.0 := p.1]
  {
    if pairs == [] {
      assert pairs + [p] == [p];
    } else {
      assert (pairs + [p])[1..] == pairs[1..] + [p];
      ToMapGrows(pairs[1..], p, acc[pairs[0].0 := pairs[0].1]);
    }
  }

  // ---------------------------------------------------------------- reading

  method ReadField(r: Source) returns (res: Read<Value>)
    modifies r
    ensures res == DecodeField(old(r.rest)) && r.rest == res.rest
    decreases |r.rest|, 0
  {
    hide DecodeScalar, DecodeTable, DecodeArray;
    var typ := r.Full(1);
    if typ.Bad? {
      return Bad(typ.fault, typ.rest);
    }
    if typ.value[0] == Letter('A') {
      res := ReadArray(r);
    } else if typ.value[0] == Letter('F') {
      res := ReadTable(r);
    } else {
      var scalar := DecodeScalar(typ.value[0], r.rest);
      r.rest := scalar.rest;
      res := Then(scalar, s => Scalar(s));
    }
  }

  method ReadTable(r: Source) returns (res: Read<Value>)
    modifies r
    ensures res == DecodeTable(old(r.rest)) && r.rest == res.rest
    decreases |r.rest|, 2
  {
    hide ReadPrefixed, DecodeField;
    var str := r.String(4);
    if str.Bad? {
      return Bad(str.fault, str.rest);
    }
    var nested := new Source(str.value);
    var table := map[];
    while |nested.rest| > 0
      invariant r.rest == str.rest && |nested.rest| <= |str.value|
      invariant DecodeFields(str.value, map[]) == DecodeFields(nested.rest, table)
      decreases |nested.rest|
    {
      var key := nested.String(1);
      if key.Bad? {
        return Bad(key.fault, r.rest);
      }
      var value := ReadField(nested);
      if value.Bad? {
        return Bad(value.fault, r.rest);
      }
      table := table[key.value := value.value];
    }
    return Got(Table(table), r.rest);
  }

  method ReadArray(r: Source) returns (res: Read<Value>)
    modifies r
    ensures res == DecodeArray(old(r.rest)) && r.rest == res.rest
    decreases |r.rest|, 2
  {
    hide ReadUint, DecodeField;
    var size := r.Uint(4);
    if size.Bad? {
      return Bad(size.fault, size.rest);
    }
    ghost var start := r.rest;
    var n := if size.value <= |r.rest| then size.value else |r.rest|;
    var beyond := r.rest[n..];
    var lim := new Source(r.rest[..n]);
    var arr: seq<Value> := [];
    var field := ReadField(lim);
    while field.Got?
      invariant field.rest == lim.rest && |lim.rest| <= n && beyond == start[n..] && r.rest == start
      invariant DecodeItems(start[..n], []) == Resumed(field, arr)
      decreases field.Got?, |lim.rest|
    {
      arr := arr + [field.value];
      field := ReadField(lim);
    }
    r.rest := lim.rest + beyond;
    if field.fault == EOF {
      return Got(Array(arr), r.rest);
    }
    return Bad(field.fault, r.rest);
  }

  /** What reading the items comes to once the next item has been read. */
  function Resumed(field: Read<Value>, arr: seq<Value>): Read<seq<Value>> {
    match field
    case Bad(EOF, rest) => Got(arr, rest)
    case Bad(fault, rest) => Bad(fault, rest)
    case Got(item, rest) => DecodeItems(rest, arr + [item])
  }
}
