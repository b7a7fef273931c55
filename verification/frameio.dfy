/** Writing and reading frames step by step (streadway/amqp write.go and read.go). */
module FrameIO {
  import opened Wire
  import opened Tables
  import opened TableIO
  import opened Frames

  method WriteFrame(w: Buffer, typ: Byte, channel: UInt16, payload: Bytes)
    modifies w
    ensures w.bytes == old(w.bytes) + Framed(typ, channel, payload)
  {
    w.Write([typ] + EncodeUint(channel, 2) + Length32(payload));
    w.Write(payload);
    w.Write([FRAME_END]);
  }

  method WriteBodyFrame(w: Buffer, f: Frame)
    requires f.BodyFrame?
    modifies w
    ensures w.bytes == old(w.bytes) + EncodeFrame(f, [])
  {
    WriteFrame(w, FRAME_BODY, f.channel, f.body);
  }

  method WriteHeartbeatFrame(w: Buffer, f: Frame)
    requires f.HeartbeatFrame?
    modifies w
    ensures w.bytes == old(w.bytes) + EncodeFrame(f, [])
  {
    WriteFrame(w, FRAME_HEARTBEAT, f.channel, []);
  }

  /** The first pass: which properties the mask announces. */
  method BuildMask(p: Properties) returns (mask: nat)
    ensures mask == Mask(p)
  {
    hide SlotsOf, Or, Present, HasProperty;
    var s := SlotsOf(p);
    mask := 0;
    for k := 0 to 13
      invariant mask == MaskUpTo(s, k)
    {
      if Present(s[k]) {
        mask := Or(mask, Flag(k));
      }
    }
    assert !Written(s, 13);
  }

  /** What one property appends to the payload; the order is known once the headers have been visited. */
  method WriteProperty(payload: Buffer, slot: Slot, ghost before: seq<Field>) returns (ok: bool, ghost order: seq<Field>)
    requires Present(slot)
    modifies payload
    ensures ok <==> (slot.Tab? ==> ValidateField(Table(slot.h.table)))
    ensures ok ==> payload.bytes == old(payload.bytes) + EncodeSlot(slot, order)
    ensures ok && slot.Tab? ==> Visits(order, slot.h)
    ensures !slot.Tab? ==> order == before
  {
    hide Prefixed, EncodeFields, EncodeUint, ToMap, ErasePairs;
    ok, order := true, before;
    match slot
    case Str(s) => WriteShortstr(payload, s);
    case Tab(h) => ok, order := WriteTable(payload, Table(h.table));
    case Num(n) => payload.Write([n]);
    case Stamp(t) => payload.Write(EncodeUint(Unsigned(t.sec, U64), 8));
  }

  /** The second pass; it stops at a header table that holds an unsupported value. */
  method WriteProperties(payload: Buffer, p: Properties, mask: nat) returns (ok: bool, ghost order: seq<Field>)
    requires mask == Mask(p)
    modifies payload
    ensures ok <==> (HasTable(SlotsOf(p)) ==> ValidateField(Table(p.headers.table)))
    ensures ok ==> payload.bytes == old(payload.bytes) + EncodeSlots(SlotsOf(p), order, 14)
    ensures ok && HasTable(SlotsOf(p)) ==> Visits(order, p.headers)
  {
    hide Present, HasProperty, MaskUpTo, EncodeSlot, ValidateField, Visits, SlotsOf;
    var s := SlotsOf(p);
    ok, order := true, [];
    SlotKinds(p);
    for k := 0 to 13
      invariant ok && payload.bytes == old(payload.bytes) + EncodeSlots(s, order, k)
      invariant k > 2 && HasTable(s) ==> ValidateField(Table(p.headers.table)) && Visits(order, p.headers)
    {
      MaskMarksPresence(p, k);
      if HasProperty(mask, Flag(k)) {
        ghost var before := order;
        ok, order := WriteProperty(payload, s[k], before);
        if !ok {
          return;
        }
        if k == 2 {
          StringsHaveNoOrder(p, before, order);
        }
      }
    }
    assert !Written(s, 13);
  }

  lemma SlotKinds(p: Properties)
    ensures forall k :: 0 <= k < 14 ==> (SlotsOf(p)[k].Tab? <==> k == 2)
    ensures SlotsOf(p)[2].h == p.headers && (HasTable(SlotsOf(p)) ==> p.headers.SomeTable?)
  {
    AllKinds(p, []);
  }

  lemma StringsHaveNoOrder(p: Properties, a: seq<Field>, b: seq<Field>)
    ensures EncodeSlots(SlotsOf(p), a, 2) == EncodeSlots(SlotsOf(p), b, 2)
  {
    var s := SlotsOf(p);
    assert EncodeSlots(s, a, 0) == EncodeSlots(s, b, 0);
    assert EncodeSlots(s, a, 1) == EncodeSlots(s, b, 1);
  }

  /**
   * A header frame is written exactly when its header table, if any, validates; otherwise nothing is.
   */
  method WriteHeaderFrame(w: Buffer, f: Frame) returns (ok: bool, ghost order: seq<Field>)
    requires f.HeaderFrame?
    modifies w
    ensures ok <==> (HasTable(SlotsOf(f.properties)) ==> ValidateField(Table(f.properties.headers.table)))
    ensures w.bytes == if ok then old(w.bytes) + EncodeFrame(f, order) else old(w.bytes)
    ensures ok && HasTable(SlotsOf(f.properties)) ==> Visits(order, f.properties.headers)
  {
    hide EncodeUint, EncodeSlots, SlotsOf, Mask, HasTable, ValidateField, Visits, Framed;
    var payload := new Buffer();
    payload.Write(EncodeUint(f.classId, 2));
    payload.Write(EncodeUint(f.weight, 2));
    payload.Write(EncodeUint(f.size, 8));
    var mask := BuildMask(f.properties);
    payload.Write(EncodeUint(mask, 2));
    ok, order := WriteProperties(payload, f.properties, mask);
    if ok {
      assert payload.bytes == EncodeHeader(f, order);
      WriteFrame(w, FRAME_HEADER, f.channel, payload.bytes);
    }
  }

  // ---------------------------------------------------------------- reading

  method ReadProperty(r: Source, i: nat) returns (res: Read<Slot>)
    modifies r
    ensures res == DecodeSlot(i, old(r.rest)) && r.rest == res.rest
  {
    hide DecodeTable, ReadUint, ReadPrefixed;
    if i == 2 {
      var table := ReadTable(r);
      res := Then(table, (v: Value) => Tab(if v.Table? then SomeTable(v.fields) else NoTable));
    } else if i == 3 || i == 4 {
      var octet := r.Uint(1);
      res := Then(octet, (n: nat) => Num(n % U8));
    } else if i == 9 {
      var seconds := r.Uint(8);
      res := Then(seconds, n => Stamp(Time(ToInt64(n), 0)));
    } else {
      var str := r.String(1);
      res := Then(str, s => Str(s));
    }
  }

  method ReadProperties(r: Source, flags: nat) returns (res: Read<Slots>)
    modifies r
    ensures res == DecodeSlots(flags, old(r.rest), []) && r.rest == res.rest
  {
    hide DecodeSlot, HasProperty, Flag;
    var got: Slots := [];
    for k := 0 to 14
      invariant |got| == k && WellKinded(got)
      invariant DecodeSlots(flags, old(r.rest), []) == DecodeSlots(flags, r.rest, got)
    {
      var slot := Default(k);
      if HasProperty(flags, Flag(k)) {
        var read := ReadProperty(r, k);
        if read.Bad? {
          return Bad(read.fault, read.rest);
        }
        slot := read.value;
      }
      got := got + [slot];
    }
    return Got(got, r.rest);
  }

  method ParseHeaderFrame(r: Source, channel: UInt16) returns (res: Read<Frame>)
    modifies r
    ensures res == DecodeHeader(channel, old(r.rest)) && r.rest == res.rest
  {
    hide ReadUint, DecodeSlots;
    var classId := r.Uint(2);
    if classId.Bad? {
      return Bad(classId.fault, classId.rest);
    }
    var weight := r.Uint(2);
    if weight.Bad? {
      return Bad(weight.fault, weight.rest);
    }
    var size := r.Uint(8);
    if size.Bad? {
      return Bad(size.fault, size.rest);
    }
    var flags := r.Uint(2);
    if flags.Bad? {
      return Bad(flags.fault, flags.rest);
    }
    var slots := ReadProperties(r, flags.value);
    if slots.Bad? {
      return Bad(slots.fault, slots.rest);
    }
    var p := FromSlots(slots.value);
    return Got(HeaderFrame(channel, classId.value % U16, weight.value % U16, size.value % U64, p), slots.rest);
  }

  /** One frame off the stream, as ReadFrame of the specification says. */
  method ReadOneFrame(r: Source) returns (res: Read<Frame>)
    modifies r
    ensures res == ReadFrame(old(r.rest)) && r.rest == res.rest
  {
    hide DecodeUint, ReadFull, DecodeHeader;
    var scratch := r.Full(7);
    if scratch.Bad? {
      return Bad(scratch.fault, scratch.rest);
    }
    var typ, channel, size := scratch.value[0], DecodeUint(scratch.value[1..3]) % U16, DecodeUint(scratch.value[3..7]);
    var frame: Read<Frame>;
    if typ == FRAME_HEADER {
      frame := ParseHeaderFrame(r, channel);
    } else if typ == FRAME_BODY {
      var body := r.Full(size);
      frame := Then(body, b => BodyFrame(channel, b));
    } else {
      frame := DecodePayload(typ, channel, size, r.rest);
    }
    if frame.Bad? {
      return frame;
    }
    var end := r.Full(1);
    if end.Bad? {
      return Bad(end.fault, end.rest);
    }
    if end.value[0] != FRAME_END {
      return Bad(FrameError, end.rest);
    }
    return Got(frame.value, end.rest);
  }
}
