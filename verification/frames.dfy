/**
 * Content header, body and heartbeat frames on the wire: sections 4.2.3 and 4.2.6 of AMQP 0-9-1
 * (streadway/amqp write.go, read.go and types.go).
 */
module Frames {
  import opened Wire
  import opened Tables
  import opened TableImage

  const FRAME_METHOD: Byte := 1
  const FRAME_HEADER: Byte := 2
  const FRAME_BODY: Byte := 3
  const FRAME_HEARTBEAT: Byte := 8
  const FRAME_END: Byte := 206

  /** A header table, or none at all. */
  datatype Headers = NoTable | SomeTable(table: map<Bytes, Value>)

  datatype Properties = Properties(
    contentType: Bytes,
    contentEncoding: Bytes,
    headers: Headers,
    deliveryMode: Byte,
    priority: Byte,
    correlationId: Bytes,
    replyTo: Bytes,
    expiration: Bytes,
    messageId: Bytes,
    timestamp: Time,
    typ: Bytes,
    userId: Bytes,
    appId: Bytes,
    reserved1: Bytes)

  datatype Frame =
    | HeaderFrame(channel: UInt16, classId: UInt16, weight: UInt16, size: UInt64, properties: Properties)
    | BodyFrame(channel: UInt16, body: Bytes)
    | HeartbeatFrame(channel: UInt16)

  // ---------------------------------------------------------------- properties, in the order of their flags

  datatype Slot = Str(s: Bytes) | Tab(h: Headers) | Num(n: Byte) | Stamp(t: Time)

  type Slots = seq<Slot>

  function SlotsOf(p: Properties): (s: Slots)
    ensures |s| == 14
  {
    [Str(p.contentType), Str(p.contentEncoding), Tab(p.headers), Num(p.deliveryMode), Num(p.priority),
     Str(p.correlationId), Str(p.replyTo), Str(p.expiration), Str(p.messageId), Stamp(p.timestamp),
     Str(p.typ), Str(p.userId), Str(p.appId), Str(p.reserved1)]
  }

  /** The instant time.Time{} stands for: the first of January of the year 1. */
  const ZERO_TIME := Time(-62135596800, 0)

  /** What a property is when nothing set it, by its place in the order. */
  function Default(i: nat): Slot {
    if i == 2 then Tab(NoTable)
    else if i == 3 || i == 4 then Num(0)
    else if i == 9 then Stamp(ZERO_TIME)
    else Str([])
  }

  predicate SameKind(a: Slot, b: Slot) {
    (a.Str? <==> b.Str?) && (a.Tab? <==> b.Tab?) && (a.Num? <==> b.Num?) && (a.Stamp? <==> b.Stamp?)
  }

  predicate WellKinded(s: Slots) {
    forall i :: 0 <= i < |s| ==> SameKind(s[i], Default(i))
  }

  function FromSlots(s: Slots): (p: Properties)
    requires |s| == 14 && WellKinded(s)
    ensures SlotsOf(p) == s
  {
    Properties(s[0].s, s[1].s, s[2].h, s[3].n, s[4].n, s[5].s, s[6].s, s[7].s, s[8].s, s[9].t, s[10].s, s[11].s,
               s[12].s, s[13].s)
  }

  /** Set, as the writer tests it: an empty table counts as none. */
  predicate Present(slot: Slot) {
    match slot
    case Str(s) => s != []
    case Tab(h) => h.SomeTable? && h.table != map[]
    case Num(n) => n > 0
    case Stamp(t) => t != ZERO_TIME
  }

  /** The last property is read when it comes but never written. */
  predicate Written(s: Slots, i: nat)
    requires i < |s|
  {
    i < 13 && Present(s[i])
  }

  // ---------------------------------------------------------------- the presence mask

  /** The flag of a property, by its place in the order. */
  function Flag(i: nat): nat
    requires i < 14
  {
    if i == 0 then 0x8000
    else if i == 1 then 0x4000
    else if i == 2 then 0x2000
    else if i == 3 then 0x1000
    else if i == 4 then 0x0800
    else if i == 5 then 0x0400
    else if i == 6 then 0x0200
    else if i == 7 then 0x0100
    else if i == 8 then 0x0080
    else if i == 9 then 0x0040
    else if i == 10 then 0x0020
    else if i == 11 then 0x0010
    else if i == 12 then 0x0008
    else 0x0004
  }

  /** mask & flag > 0, for a flag of one bit. */
  predicate HasProperty(mask: nat, flag: nat) {
    if flag <= 1 then mask % 2 == 1 else HasProperty(mask / 2, flag / 2)
  }

  /** mask | flag, for a flag of one bit. */
  function Or(mask: nat, flag: nat): nat {
    if HasProperty(mask, flag) then mask else mask + flag
  }

  function MaskUpTo(s: Slots, k: nat): nat
    requires k <= |s| == 14
  {
    if k == 0 then 0
    else if Written(s, k - 1) then Or(MaskUpTo(s, k - 1), Flag(k - 1))
    else MaskUpTo(s, k - 1)
  }

  predicate OneBit(f: nat) {
    f == 1 || (f > 1 && f % 2 == 0 && OneBit(f / 2))
  }

  predicate Multiple(m: nat, f: nat) {
    f <= 1 || (m % 2 == 0 && Multiple(m / 2, f / 2))
  }

  /** Adding a flag to a mask whose lower bits are clear sets that bit and touches no other. */
  lemma {:induction false} AddFlag(m: nat, f: nat, g: nat)
    requires OneBit(f) && OneBit(g) && Multiple(m, 2 * f)
    ensures HasProperty(m + f, g) <==> g == f || HasProperty(m, g)
    ensures Multiple(m + f, f)
  {
    assert m % 2 == 0 && Multiple(m / 2, f);
    if f > 1 {
      assert (m + f) / 2 == m / 2 + f / 2 && (m + f) % 2 == 0;
      if g > 1 {
        AddFlag(m / 2, f / 2, g / 2);
      } else {
        AddFlag(m / 2, f / 2, 1);
      }
    } else {
      assert (m + f) / 2 == m / 2;
    }
  }

  lemma {:induction false} MultipleOfHalf(m: nat, f: nat)
    requires OneBit(f) && Multiple(m, 2 * f)
    ensures Multiple(m, f) && !HasProperty(m, f)
  {
    assert m % 2 == 0 && Multiple(m / 2, f);
    if f > 1 {
      MultipleOfHalf(m / 2, f / 2);
    }
  }

  lemma OrFlag(m: nat, f: nat, g: nat)
    requires OneBit(f) && OneBit(g) && Multiple(m, 2 * f)
    ensures HasProperty(Or(m, f), g) <==> g == f || HasProperty(m, g)
    ensures Multiple(Or(m, f), f) && Or(m, f) == m + f
  {
    hide HasProperty, Multiple, OneBit;
    MultipleOfHalf(m, f);
    AddFlag(m, f, g);
  }

  /** Twice the flag of property `k`: every mask built before it is a multiple of this. */
  function Above(k: nat): nat
    requires k <= 14
  {
    if k == 0 then 0x1_0000 else Flag(k - 1)
  }

  lemma {:induction false} FlagsAreBits(i: nat)
    requires i < 14
    ensures OneBit(Flag(i)) && Flag(i) >= 4
    ensures Above(i) == 2 * Flag(i)
    decreases 14 - i
  {
    if i == 13 {
      assert OneBit(2);
    } else {
      FlagsAreBits(i + 1);
    }
  }

  lemma {:induction false} ZeroMask(f: nat)
    requires OneBit(f)
    ensures Multiple(0, f) && !HasProperty(0, f)
  {
    if f > 1 {
      ZeroMask(f / 2);
    }
  }

  lemma {:induction false} MaskSoFar(s: Slots, k: nat, i: nat)
    requires k <= |s| == 14 && i < 14
    ensures HasProperty(MaskUpTo(s, k), Flag(i)) <==> i < k && Written(s, i)
    ensures Multiple(MaskUpTo(s, k), Above(k))
    ensures MaskUpTo(s, k) + Above(k) <= 0x1_0000
  {
    hide Flag, HasProperty, Multiple, Or, OneBit, Written;
    FlagsAreBits(i);
    if k == 0 {
      ZeroMask(Flag(i));
      FlagsAreBits(0);
      ZeroMask(Above(0)) by { TopIsOneBit(); }
    } else {
      MaskSoFar(s, k - 1, i);
      FlagsAreBits(k - 1);
      FlagsDiffer(i, k - 1);
      MultipleOfHalf(MaskUpTo(s, k - 1), Flag(k - 1));
      if Written(s, k - 1) {
        OrFlag(MaskUpTo(s, k - 1), Flag(k - 1), Flag(i));
      }
    }
  }

  lemma TopIsOneBit()
    ensures OneBit(0x1_0000)
  {
    FlagsAreBits(0);
  }

  lemma FlagsDiffer(i: nat, j: nat)
    requires i < 14 && j < 14
    ensures Flag(i) == Flag(j) <==> i == j
  {}

  function Mask(p: Properties): nat {
    MaskUpTo(SlotsOf(p), 14)
  }

  /** Each bit of the mask says whether its property is there. */
  lemma {:induction false} MaskMarksPresence(p: Properties, i: nat)
    requires i < 14
    ensures HasProperty(Mask(p), Flag(i)) <==> Written(SlotsOf(p), i)
  {
    MaskSoFar(SlotsOf(p), 14, i);
  }

  lemma MaskStep(s: Slots, k: nat)
    requires k < |s| == 14
    ensures MaskUpTo(s, k + 1) == MaskUpTo(s, k) + If(Written(s, k), Flag(k))
  {
    hide HasProperty, Multiple, OneBit, Written, Flag;
    MaskSoFar(s, k, 0);
    FlagsAreBits(k);
    MultipleOfHalf(MaskUpTo(s, k), Flag(k));
  }

  function If(present: bool, flag: nat): nat {
    if present then flag else 0
  }

  /** The mask field by field: thirteen flags, and none for the reserved string. */
  lemma MaskByField(p: Properties)
    ensures Mask(p) ==
            If(p.contentType != [], 0x8000) + If(p.contentEncoding != [], 0x4000)
            + If(p.headers.SomeTable? && p.headers.table != map[], 0x2000)
            + If(p.deliveryMode > 0, 0x1000) + If(p.priority > 0, 0x0800)
            + If(p.correlationId != [], 0x0400) + If(p.replyTo != [], 0x0200) + If(p.expiration != [], 0x0100)
            + If(p.messageId != [], 0x0080) + If(p.timestamp != ZERO_TIME, 0x0040)
            + If(p.typ != [], 0x0020) + If(p.userId != [], 0x0010) + If(p.appId != [], 0x0008)
  {
    hide MaskUpTo, Written, SlotsOf, If;
    WrittenByField(p);
    MaskInSteps(SlotsOf(p));
  }

  lemma WrittenByField(p: Properties)
    ensures var s := SlotsOf(p);
            && Written(s, 0) == (p.contentType != []) && Written(s, 1) == (p.contentEncoding != [])
            && Written(s, 2) == (p.headers.SomeTable? && p.headers.table != map[])
            && Written(s, 3) == (p.deliveryMode > 0) && Written(s, 4) == (p.priority > 0)
            && Written(s, 5) == (p.correlationId != []) && Written(s, 6) == (p.replyTo != [])
            && Written(s, 7) == (p.expiration != []) && Written(s, 8) == (p.messageId != [])
            && Written(s, 9) == (p.timestamp != ZERO_TIME) && Written(s, 10) == (p.typ != [])
            && Written(s, 11) == (p.userId != []) && Written(s, 12) == (p.appId != []) && !Written(s, 13)
  {}

  lemma MaskInSteps(s: Slots)
    requires |s| == 14
    ensures MaskUpTo(s, 14) ==
            If(Written(s, 0), 0x8000) + If(Written(s, 1), 0x4000) + If(Written(s, 2), 0x2000) + If(Written(s, 3), 0x1000)
            + If(Written(s, 4), 0x0800) + If(Written(s, 5), 0x0400) + If(Written(s, 6), 0x0200) + If(Written(s, 7), 0x0100)
            + If(Written(s, 8), 0x0080) + If(Written(s, 9), 0x0040) + If(Written(s, 10), 0x0020) + If(Written(s, 11), 0x0010)
            + If(Written(s, 12), 0x0008)
  {
    hide Written, MaskUpTo, If;
    NoMask(s);
    MaskStep(s, 0);
    MaskStep(s, 1);
    MaskStep(s, 2);
    MaskStep(s, 3);
    MaskStep(s, 4);
    MaskStep(s, 5);
    MaskStep(s, 6);
    MaskStep(s, 7);
    MaskStep(s, 8);
    MaskStep(s, 9);
    MaskStep(s, 10);
    MaskStep(s, 11);
    MaskStep(s, 12);
    MaskStep(s, 13);
  }

  lemma NoMask(s: Slots)
    requires |s| == 14
    ensures MaskUpTo(s, 0) == 0 && If(Written(s, 13), Flag(13)) == 0
  {}

  /** mask & flag, with a division. */
  lemma {:induction false} HasPropertyIsTheBit(mask: nat, flag: nat)
    requires OneBit(flag)
    ensures HasProperty(mask, flag) <==> mask / flag % 2 == 1
    decreases flag
  {
    if flag > 1 {
      HasPropertyIsTheBit(mask / 2, flag / 2);
      HalvedTwice(mask, flag / 2);
    }
  }

  lemma HalvedTwice(mask: nat, half: nat)
    requires half > 0
    ensures mask / 2 / half == mask / (2 * half)
  {
    var q, r := mask / (2 * half), mask % (2 * half);
    assert mask == 2 * (half * q) + r && 0 <= r / 2 < half;
    assert mask / 2 == half * q + r / 2;
    QuotientIs(mask / 2, half, q, r / 2);
  }

  lemma QuotientIs(n: nat, d: nat, q: nat, r: nat)
    requires d > 0 && n == d * q + r && r < d
    ensures n / d == q
  {
    var p := n / d;
    assert n == d * p + n % d;
    if p < q {
      OneMoreTime(d, p, q);
    } else if q < p {
      OneMoreTime(d, q, p);
    }
  }

  lemma {:induction false} OneMoreTime(d: nat, p: nat, q: nat)
    requires p < q
    ensures d * p + d <= d * q
    decreases q
  {
    if q > p + 1 {
      OneMoreTime(d, p, q - 1);
    }
    assert d * q == d * (q - 1) + d;
  }

  // ---------------------------------------------------------------- writing

  function EncodeSlot(slot: Slot, order: seq<Field>): Bytes {
    match slot
    case Str(s) => Prefixed(s, 1)
    case Tab(_) => Prefixed(EncodeFields(order), 4)
    case Num(n) => [n]
    case Stamp(t) => EncodeUint(Unsigned(t.sec, U64), 8)
  }

  /** The properties that the mask announces, one after another; `order` is how the headers were visited. */
  function EncodeSlots(s: Slots, order: seq<Field>, k: nat): Bytes
    requires k <= |s|
  {
    if k == 0 then []
    else EncodeSlots(s, order, k - 1) + (if Written(s, k - 1) then EncodeSlot(s[k - 1], order) else [])
  }

  function EncodeHeader(f: Frame, order: seq<Field>): Bytes
    requires f.HeaderFrame?
  {
    EncodeUint(f.classId, 2) + EncodeUint(f.weight, 2) + EncodeUint(f.size, 8) + EncodeUint(Mask(f.properties), 2) +
    EncodeSlots(SlotsOf(f.properties), order, 14)
  }

  /** Type, channel, length, payload and end mark. */
  function Framed(typ: Byte, channel: UInt16, payload: Bytes): Bytes {
    [typ] + EncodeUint(channel, 2) + Length32(payload) + payload + [FRAME_END]
  }

  function EncodeFrame(f: Frame, order: seq<Field>): Bytes {
    match f
    case HeaderFrame(channel, _, _, _, _) => Framed(FRAME_HEADER, channel, EncodeHeader(f, order))
    case BodyFrame(channel, body) => Framed(FRAME_BODY, channel, body)
    case HeartbeatFrame(channel) => Framed(FRAME_HEARTBEAT, channel, [])
  }

  // ---------------------------------------------------------------- the bytes themselves

  /** A string property, if it is there: a byte for its length, and itself. */
  function ShortString(s: Bytes): Bytes {
    if s == [] then [] else [|s| % 256] + s[..|s| % 256]
  }

  function OneOctet(n: Byte): Bytes {
    if n == 0 then [] else [n]
  }

  function HeaderTable(h: Headers, order: seq<Field>): Bytes {
    if h.SomeTable? && h.table != map[] then Prefixed(EncodeFields(order), 4) else []
  }

  function Seconds(t: Time): Bytes {
    if t == ZERO_TIME then [] else EncodeUint(if t.sec < 0 then t.sec + 0x1_0000_0000_0000_0000 else t.sec, 8)
  }

  lemma SlotBytes(s: Slots, order: seq<Field>, k: nat)
    requires k < |s| == 14
    ensures EncodeSlots(s, order, k + 1) == EncodeSlots(s, order, k) + SlotByte(s, order, k)
  {}

  function SlotByte(s: Slots, order: seq<Field>, k: nat): Bytes
    requires k < |s|
  {
    if Written(s, k) then EncodeSlot(s[k], order) else []
  }

  lemma NoSlotBytes(s: Slots, order: seq<Field>)
    requires |s| == 14
    ensures EncodeSlots(s, order, 0) == [] && SlotByte(s, order, 13) == []
  {}

  lemma BytesInSteps(s: Slots, order: seq<Field>)
    requires |s| == 14
    ensures EncodeSlots(s, order, 14) ==
            SlotByte(s, order, 0) + SlotByte(s, order, 1) + SlotByte(s, order, 2) + SlotByte(s, order, 3)
            + SlotByte(s, order, 4) + SlotByte(s, order, 5) + SlotByte(s, order, 6) + SlotByte(s, order, 7)
            + SlotByte(s, order, 8) + SlotByte(s, order, 9) + SlotByte(s, order, 10) + SlotByte(s, order, 11)
            + SlotByte(s, order, 12)
  {
    hide EncodeSlots, SlotByte;
    NoSlotBytes(s, order);
    SlotBytes(s, order, 0);
    assert [] + SlotByte(s, order, 0) == SlotByte(s, order, 0);
    SlotBytes(s, order, 1);
    SlotBytes(s, order, 2);
    SlotBytes(s, order, 3);
    SlotBytes(s, order, 4);
    SlotBytes(s, order, 5);
    SlotBytes(s, order, 6);
    SlotBytes(s, order, 7);
    SlotBytes(s, order, 8);
    SlotBytes(s, order, 9);
    SlotBytes(s, order, 10);
    SlotBytes(s, order, 11);
    SlotBytes(s, order, 12);
    SlotBytes(s, order, 13);
    assert EncodeSlots(s, order, 13) + [] == EncodeSlots(s, order, 13);
  }

  lemma StringByte(s: Slots, order: seq<Field>, k: nat)
    requires k < 13 && |s| == 14 && s[k].Str?
    ensures SlotByte(s, order, k) == ShortString(s[k].s)
  {
    hide Prefixed;
    ShortStringIs(s[k].s);
  }

  lemma ShortStringIs(t: Bytes)
    ensures t != [] ==> ShortString(t) == Prefixed(t, 1)
  {
    hide EncodeUint;
    TwoBytes(|t| % U8);
  }

  lemma OctetByte(s: Slots, order: seq<Field>, k: nat)
    requires k < 13 && |s| == 14 && s[k].Num?
    ensures SlotByte(s, order, k) == OneOctet(s[k].n)
  {}

  lemma TableByte(s: Slots, order: seq<Field>, k: nat)
    requires k < 13 && |s| == 14 && s[k].Tab?
    ensures SlotByte(s, order, k) == HeaderTable(s[k].h, order)
  {}

  lemma StampByte(s: Slots, order: seq<Field>, k: nat)
    requires k < 13 && |s| == 14 && s[k].Stamp?
    ensures SlotByte(s, order, k) == Seconds(s[k].t)
  {}

  /** The properties on the wire, field by field in the order of their flags. */
  lemma PropertiesOnTheWire(p: Properties, order: seq<Field>)
    ensures EncodeSlots(SlotsOf(p), order, 14) ==
            ShortString(p.contentType) + ShortString(p.contentEncoding) + HeaderTable(p.headers, order)
            + OneOctet(p.deliveryMode) + OneOctet(p.priority)
            + ShortString(p.correlationId) + ShortString(p.replyTo) + ShortString(p.expiration) + ShortString(p.messageId)
            + Seconds(p.timestamp) + ShortString(p.typ) + ShortString(p.userId) + ShortString(p.appId)
  {
    hide ShortString, OneOctet, HeaderTable, Seconds, SlotByte, EncodeSlots;
    var s := SlotsOf(p);
    BytesInSteps(s, order);
    StringByte(s, order, 0);
    StringByte(s, order, 1);
    TableByte(s, order, 2);
    OctetByte(s, order, 3);
    OctetByte(s, order, 4);
    StringByte(s, order, 5);
    StringByte(s, order, 6);
    StringByte(s, order, 7);
    StringByte(s, order, 8);
    StampByte(s, order, 9);
    StringByte(s, order, 10);
    StringByte(s, order, 11);
    StringByte(s, order, 12);
  }

  /** Every frame: its type, its channel, the length of its payload, the payload, and the end mark. */
  lemma FrameOnTheWire(f: Frame, order: seq<Field>)
    ensures var payload := Payload(f, order);
            EncodeFrame(f, order) ==
            [match f case HeaderFrame(_, _, _, _, _) => 2 case BodyFrame(_, _) => 3 case HeartbeatFrame(_) => 8]
            + Word(f.channel) + Quad(|payload| % 0x1_0000_0000) + payload + [206]
  {
    hide EncodeUint, Quad, Word, EncodeSlots, Mask;
    TwoBytes(f.channel);
    if f.HeaderFrame? {
      TwoBytes(f.classId);
      TwoBytes(f.weight);
      TwoBytes(Mask(f.properties));
    }
    FourBytes(|Payload(f, order)| % U32);
  }

  /** A header carries its class, its weight, the length of the body, the mask and the properties; a heartbeat nothing. */
  function Payload(f: Frame, order: seq<Field>): Bytes {
    match f
    case HeaderFrame(_, classId, weight, size, p) =>
      Word(classId) + Word(weight) + EncodeUint(size, 8) + Word(Mask(p)) + EncodeSlots(SlotsOf(p), order, 14)
    case BodyFrame(_, body) => body
    case HeartbeatFrame(_) => []
  }

  // ---------------------------------------------------------------- reading

  function DecodeSlot(i: nat, r: Bytes): (res: Read<Slot>)
    ensures |res.rest| <= |r| && (res.Got? ==> SameKind(res.value, Default(i)))
  {
    if i == 2 then Then(DecodeTable(r), (v: Value) => Tab(if v.Table? then SomeTable(v.fields) else NoTable))
    else if i == 3 || i == 4 then Then(ReadUint(r, 1), (n: nat) => Num(n % U8))
    else if i == 9 then Then(ReadUint(r, 8), n => Stamp(Time(ToInt64(n), 0)))
    else Then(ReadPrefixed(r, 1), s => Str(s))
  }

  /** The properties from the one after `acc` on. */
  function DecodeSlots(flags: nat, r: Bytes, acc: Slots): (res: Read<Slots>)
    requires |acc| <= 14 && WellKinded(acc)
    ensures |res.rest| <= |r| && (res.Got? ==> |res.value| == 14 && WellKinded(res.value))
    decreases 14 - |acc|
  {
    var i := |acc|;
    if i == 14 then Got(acc, r)
    else if !HasProperty(flags, Flag(i)) then DecodeSlots(flags, r, acc + [Default(i)])
    else
      match DecodeSlot(i, r)
      case Bad(fault, rest) => Bad(fault, rest)
      case Got(slot, rest) => DecodeSlots(flags, rest, acc + [slot])
  }

  /** The length in the frame is not looked at: the properties say where they end. */
  function DecodeHeader(channel: UInt16, r: Bytes): (res: Read<Frame>)
    ensures |res.rest| <= |r|
  {
    match ReadUint(r, 2)
    case Bad(fault, rest) => Bad(fault, rest)
    case Got(classId, rest) =>
      match ReadUint(rest, 2)
      case Bad(fault, rest) => Bad(fault, rest)
      case Got(weight, rest) =>
        match ReadUint(rest, 8)
        case Bad(fault, rest) => Bad(fault, rest)
        case Got(size, rest) =>
          match ReadUint(rest, 2)
          case Bad(fault, rest) => Bad(fault, rest)
          case Got(flags, rest) =>
            match DecodeSlots(flags, rest, [])
            case Bad(fault, rest) => Bad(fault, rest)
            case Got(s, rest) => Got(HeaderFrame(channel, classId % U16, weight % U16, size % U64, FromSlots(s)), rest)
  }

  function DecodePayload(typ: Byte, channel: UInt16, size: nat, r: Bytes): (res: Read<Frame>)
    ensures |res.rest| <= |r|
  {
    if typ == FRAME_METHOD then Bad(MethodArguments, r)
    else if typ == FRAME_HEADER then DecodeHeader(channel, r)
    else if typ == FRAME_BODY then Then(ReadFull(r, size), body => BodyFrame(channel, body))
    else if typ == FRAME_HEARTBEAT then if size > 0 then Bad(Panic, r) else Got(HeartbeatFrame(channel), r)
    else Bad(FrameError, r)
  }

  /** The end mark after a payload that was read. */
  function EndOf(payload: Read<Frame>): (res: Read<Frame>)
    ensures res.Got? ==> payload.Got? && |res.rest| < |payload.rest|
  {
    match payload
    case Bad(fault, rest) => Bad(fault, rest)
    case Got(frame, rest) =>
      match ReadFull(rest, 1)
      case Bad(fault, rest) => Bad(fault, rest)
      case Got(end, rest) => if end[0] != FRAME_END then Bad(FrameError, rest) else Got(frame, rest)
  }

  function ReadFrame(r: Bytes): (res: Read<Frame>)
    ensures res.Got? ==> |res.rest| < |r|
  {
    match ReadFull(r, 7)
    case Bad(fault, rest) => Bad(fault, rest)
    case Got(scratch, rest) =>
      EndOf(DecodePayload(scratch[0], DecodeUint(scratch[1..3]) % U16, DecodeUint(scratch[3..7]), rest))
  }

  // ---------------------------------------------------------------- the round trip

  function NormalSlot(slot: Slot, order: seq<Field>): Slot {
    match slot
    case Str(s) => Str(Cut(s))
    case Tab(_) => Tab(SomeTable(ToMap(NormalPairs(order), map[])))
    case Num(n) => Num(n)
    case Stamp(t) => Stamp(Time(t.sec, 0))
  }

  /** What arrives of property `i`. */
  function Arrives(s: Slots, order: seq<Field>, i: nat): Slot
    requires i < |s|
  {
    if Written(s, i) then NormalSlot(s[i], order) else Default(i)
  }

  function ArriveFrom(s: Slots, order: seq<Field>, k: nat): (r: Slots)
    requires k <= |s|
    ensures |r| == |s| - k && forall i :: 0 <= i < |r| ==> r[i] == Arrives(s, order, k + i)
    decreases |s| - k
  {
    if k == |s| then [] else [Arrives(s, order, k)] + ArriveFrom(s, order, k + 1)
  }

  function EncodeRest(s: Slots, order: seq<Field>, k: nat): Bytes
    requires k <= |s|
    decreases |s| - k
  {
    if k == |s| then []
    else (if Written(s, k) then EncodeSlot(s[k], order) else []) + EncodeRest(s, order, k + 1)
  }

  lemma {:induction false} FirstAndRest(s: Slots, order: seq<Field>, k: nat)
    requires k <= |s|
    ensures EncodeSlots(s, order, k) + EncodeRest(s, order, k) == EncodeSlots(s, order, |s|)
    decreases |s| - k
  {
    hide EncodeSlot, Written;
    if k < |s| {
      FirstAndRest(s, order, k + 1);
      var mid := if Written(s, k) then EncodeSlot(s[k], order) else [];
      assert EncodeSlots(s, order, k) + (mid + EncodeRest(s, order, k + 1)) ==
             EncodeSlots(s, order, k) + mid + EncodeRest(s, order, k + 1);
    }
  }

  /** Whether the header table is on the wire. */
  predicate HasTable(s: Slots)
    requires |s| == 14
  {
    Written(s, 2)
  }

  lemma SlotReadBack(slot: Slot, i: nat, order: seq<Field>, suffix: Bytes)
    requires SameKind(slot, Default(i)) && (slot.Tab? ==> InRange(OTable(order)))
    ensures slot.Tab? && !BlobsFit(OTable(order)) ==> Panics(DecodeSlot(i, EncodeSlot(slot, order) + suffix))
    ensures (slot.Tab? ==> BlobsFit(OTable(order))) ==>
            DecodeSlot(i, EncodeSlot(slot, order) + suffix) == Got(NormalSlot(slot, order), suffix)
  {
    hide Prefixed, ReadUint, ReadPrefixed, DecodeTable, EncodeFields, EncodeUint, ToMap, NormalPairs;
    match slot
    case Str(s) => KeyReadBack(s, suffix);
    case Tab(_) => TableRoundTrip(order, suffix);
    case Num(n) => OctetReadBack(n, suffix);
    case Stamp(t) => Widths(); IntegerReadBack(t.sec, 8, U64, suffix);
  }

  /** Reading one more property: what was written of it arrives, or the reader panics. */
  lemma SlotStep(s: Slots, order: seq<Field>, suffix: Bytes, acc: Slots)
    requires |acc| < |s| == 14 && WellKinded(s) && WellKinded(acc) && (HasTable(s) ==> InRange(OTable(order)))
    ensures var i := |acc|;
            var res := DecodeSlots(MaskUpTo(s, 14), EncodeRest(s, order, i) + suffix, acc);
            && WellKinded(acc + [Arrives(s, order, i)])
            && (i == 2 && HasTable(s) && !BlobsFit(OTable(order)) ==> Panics(res))
            && (!(i == 2 && HasTable(s) && !BlobsFit(OTable(order))) ==>
                res == DecodeSlots(MaskUpTo(s, 14), EncodeRest(s, order, i + 1) + suffix, acc + [Arrives(s, order, i)]))
  {
    hide MaskUpTo, EncodeSlot, NormalSlot, DecodeSlot, Flag, HasProperty, InRange, BlobsFit, Present;
    var i := |acc|;
    var more := EncodeRest(s, order, i + 1) + suffix;
    MaskSoFar(s, 14, i);
    assert SameKind(s[i], Default(i));
    if Written(s, i) {
      assert EncodeRest(s, order, i) + suffix == EncodeSlot(s[i], order) + more;
      SlotReadBack(s[i], i, order, more);
      NormalSlotKind(s[i], order);
    } else {
      assert EncodeRest(s, order, i) + suffix == more;
      DefaultKind(i);
    }
  }

  lemma NothingLeft(s: Slots, order: seq<Field>, suffix: Bytes, acc: Slots)
    requires |s| == 14
    ensures EncodeRest(s, order, 14) + suffix == suffix && acc + ArriveFrom(s, order, 14) == acc
  {}

  lemma ArriveNext(s: Slots, order: seq<Field>, acc: Slots)
    requires |acc| < |s|
    ensures acc + [Arrives(s, order, |acc|)] + ArriveFrom(s, order, |acc| + 1) == acc + ArriveFrom(s, order, |acc|)
  {}

  lemma AllSlotsRead(flags: nat, r: Bytes, acc: Slots)
    requires |acc| == 14 && WellKinded(acc)
    ensures DecodeSlots(flags, r, acc) == Got(acc, r)
  {}

  lemma {:induction false} SlotsRoundTrip(s: Slots, order: seq<Field>, suffix: Bytes, acc: Slots)
    requires |acc| <= |s| == 14 && WellKinded(s) && WellKinded(acc) && (HasTable(s) ==> InRange(OTable(order)))
    ensures HasTable(s) && !BlobsFit(OTable(order)) && |acc| <= 2 ==>
              Panics(DecodeSlots(MaskUpTo(s, 14), EncodeRest(s, order, |acc|) + suffix, acc))
    ensures (HasTable(s) ==> BlobsFit(OTable(order))) ==>
            DecodeSlots(MaskUpTo(s, 14), EncodeRest(s, order, |acc|) + suffix, acc) ==
            Got(acc + ArriveFrom(s, order, |acc|), suffix)
    decreases 14 - |acc|
  {
    hide DecodeSlots, MaskUpTo, Arrives, ArriveFrom, EncodeRest, WellKinded, InRange, BlobsFit, HasTable;
    var i := |acc|;
    if i == 14 {
      NothingLeft(s, order, suffix, acc);
      AllSlotsRead(MaskUpTo(s, 14), suffix, acc);
    } else {
      SlotStep(s, order, suffix, acc);
      SlotsRoundTrip(s, order, suffix, acc + [Arrives(s, order, i)]);
      ArriveNext(s, order, acc);
    }
  }

  lemma NormalSlotKind(slot: Slot, order: seq<Field>)
    ensures SameKind(NormalSlot(slot, order), slot)
  {}

  /** What arrives of the properties. */
  function NormalProperties(p: Properties, order: seq<Field>): (r: Properties)
    ensures SlotsOf(r) == ArriveFrom(SlotsOf(p), order, 0)
  {
    AllKinds(p, order);
    FromSlots(ArriveFrom(SlotsOf(p), order, 0))
  }

  lemma AllKinds(p: Properties, order: seq<Field>)
    ensures WellKinded(SlotsOf(p)) && WellKinded(ArriveFrom(SlotsOf(p), order, 0))
  {
    OwnKinds(p);
    hide SlotsOf;
    ArrivingKinds(SlotsOf(p), order);
  }

  lemma OwnKinds(p: Properties)
    ensures WellKinded(SlotsOf(p))
  {}

  lemma ArrivingKinds(s: Slots, order: seq<Field>)
    requires WellKinded(s)
    ensures WellKinded(ArriveFrom(s, order, 0))
  {
    hide ArriveFrom, NormalSlot, Default;
    forall i | 0 <= i < |s| ensures SameKind(ArriveFrom(s, order, 0)[i], Default(i)) {
      NormalSlotKind(s[i], order);
      DefaultKind(i);
    }
  }

  lemma DefaultKind(i: nat)
    ensures SameKind(Default(i), Default(i))
  {}

  function NormalFrame(f: Frame, order: seq<Field>): Frame {
    if f.HeaderFrame? then f.(properties := NormalProperties(f.properties, order)) else f
  }

  /** The header table of the frame, if one is written, has every length in range. */
  predicate HeaderInRange(f: Frame, order: seq<Field>) {
    f.HeaderFrame? && HasTable(SlotsOf(f.properties)) ==> InRange(OTable(order))
  }

  predicate HeaderBlobsFit(f: Frame, order: seq<Field>) {
    f.HeaderFrame? && HasTable(SlotsOf(f.properties)) ==> BlobsFit(OTable(order))
  }

  lemma {:induction false} HeaderRoundTrip(f: Frame, order: seq<Field>, suffix: Bytes)
    requires f.HeaderFrame? && HeaderInRange(f, order)
    ensures HeaderBlobsFit(f, order) ==>
              DecodeHeader(f.channel, EncodeHeader(f, order) + suffix) == Got(NormalFrame(f, order), suffix)
    ensures !HeaderBlobsFit(f, order) ==> Panics(DecodeHeader(f.channel, EncodeHeader(f, order) + suffix))
  {
    hide EncodeUint, ReadUint, SlotsOf, MaskUpTo, EncodeSlots, DecodeSlots, WellKinded, FromSlots, ArriveFrom;
    hide HasTable, InRange, BlobsFit;
    Widths();
    var s := SlotsOf(f.properties);
    AllKinds(f.properties, order);
    MaskFits(f.properties);
    NoSlots(s, order);
    FirstAndRest(s, order, 0);
    var r3 := EncodeSlots(s, order, 14) + suffix;
    var r2 := EncodeUint(Mask(f.properties), 2) + r3;
    var r1 := EncodeUint(f.size, 8) + r2;
    var r0 := EncodeUint(f.weight, 2) + r1;
    assert EncodeHeader(f, order) + suffix == EncodeUint(f.classId, 2) + r0;
    UintReadBack(f.classId, 2, r0);
    UintReadBack(f.weight, 2, r1);
    UintReadBack(f.size, 8, r2);
    UintReadBack(Mask(f.properties), 2, r3);
    SlotsRoundTrip(s, order, suffix, []);
    assert [] + ArriveFrom(s, order, 0) == ArriveFrom(s, order, 0);
    SlotsInjective(ArriveFrom(s, order, 0), NormalProperties(f.properties, order));
  }

  lemma NoSlots(s: Slots, order: seq<Field>)
    requires |s| == 14
    ensures EncodeRest(s, order, 0) == EncodeSlots(s, order, 14) && WellKinded([])
  {
    FirstAndRest(s, order, 0);
    assert [] + EncodeRest(s, order, 0) == EncodeRest(s, order, 0);
  }

  lemma SlotsInjective(s: Slots, p: Properties)
    requires |s| == 14 && WellKinded(s) && SlotsOf(p) == s
    ensures FromSlots(s) == p
  {}

  lemma MaskFits(p: Properties)
    ensures Mask(p) < U16
  {
    MaskSoFar(SlotsOf(p), 14, 13);
    FlagsAreBits(13);
  }

  /** Reading the seven bytes in front of a payload, and the mark behind it. */
  lemma FrontReadBack(typ: Byte, channel: UInt16, payload: Bytes, suffix: Bytes)
    ensures var r := Framed(typ, channel, payload) + suffix;
            var front := ReadFull(r, 7);
            && front.Got? && front.rest == payload + ([FRAME_END] + suffix)
            && front.value[0] == typ && DecodeUint(front.value[1..3]) == channel
            && DecodeUint(front.value[3..7]) == |payload| % U32
  {
    Widths();
    hide Pow256, DecodeUint, EncodeUint;
    var c, n := EncodeUint(channel, 2), EncodeUint(|payload| % U32, 4);
    UintRoundTrip(channel, 2);
    UintRoundTrip(|payload| % U32, 4);
    var front := [typ] + c + n;
    var rest := payload + ([FRAME_END] + suffix);
    assert Framed(typ, channel, payload) + suffix == front + rest;
    FullRoundTrip(front, rest);
    assert front[1..3] == c && front[3..7] == n;
  }

  lemma EndReadBack(suffix: Bytes)
    ensures ReadFull([FRAME_END] + suffix, 1) == Got([FRAME_END], suffix)
  {
    FullRoundTrip([FRAME_END], suffix);
  }

  /**
   * Any header, body or heartbeat frame reads back as what is left of it, and what follows the frame is
   * not touched. A header panics the reader exactly when its table holds too long a byte string.
   */
  lemma {:induction false} FrameRoundTrip(f: Frame, order: seq<Field>, suffix: Bytes)
    requires HeaderInRange(f, order) && (f.BodyFrame? ==> |f.body| < U32)
    ensures HeaderBlobsFit(f, order) ==> ReadFrame(EncodeFrame(f, order) + suffix) == Got(NormalFrame(f, order), suffix)
    ensures !HeaderBlobsFit(f, order) ==> Panics(ReadFrame(EncodeFrame(f, order) + suffix))
  {
    hide Framed, ReadFull, DecodeUint, EncodeHeader, DecodeHeader, HeaderInRange, HeaderBlobsFit, NormalProperties;
    var end := [FRAME_END] + suffix;
    EndReadBack(suffix);
    match f
    case HeaderFrame(channel, _, _, _, _) =>
      FrontReadBack(FRAME_HEADER, channel, EncodeHeader(f, order), suffix);
      HeaderRoundTrip(f, order, end);
    case BodyFrame(channel, body) =>
      BlobsFitWithoutTable(f, order);
      FrontReadBack(FRAME_BODY, channel, body, suffix);
      FullRoundTrip(body, end);
    case HeartbeatFrame(channel) =>
      BlobsFitWithoutTable(f, order);
      FrontReadBack(FRAME_HEARTBEAT, channel, [], suffix);
      assert [] + end == end;
  }

  lemma BlobsFitWithoutTable(f: Frame, order: seq<Field>)
    requires !f.HeaderFrame?
    ensures HeaderBlobsFit(f, order)
  {}

  /** A body whose length does not fit four bytes does not come back. */
  lemma {:induction false} BodyComesBack(channel: UInt16, body: Bytes, suffix: Bytes)
    ensures ReadFrame(EncodeFrame(BodyFrame(channel, body), []) + suffix) == Got(BodyFrame(channel, body), suffix) <==>
            |body| < U32
  {
    if |body| < U32 {
      BlobsFitWithoutTable(BodyFrame(channel, body), []);
      FrameRoundTrip(BodyFrame(channel, body), [], suffix);
    } else {
      hide DecodeUint, EncodeUint, DecodeHeader, Framed;
      FrontReadBack(FRAME_BODY, channel, body, suffix);
      assert |body| % U32 != |body|;
    }
  }

  /** The reserved string, which is never written, is read when its flag is there. */
  lemma ReservedIsRead(t: Bytes, suffix: Bytes, acc: Slots)
    requires |acc| == 13 && WellKinded(acc)
    ensures DecodeSlots(0x0004, Prefixed(t, 1) + suffix, acc) == Got(acc + [Str(Cut(t))], suffix)
  {
    hide Prefixed, ReadPrefixed;
    KeyReadBack(t, suffix);
    AllSlotsRead(0x0004, suffix, acc + [Str(Cut(t))]);
    assert HasProperty(4, 4) by { assert HasProperty(2, 2) && HasProperty(1, 1); }
  }

  // ---------------------------------------------------------------- what is refused

  /** Seven bytes in front, a payload, and whatever comes then. */
  function Raw(typ: Byte, channel: UInt16, payload: Bytes, tail: Bytes): Bytes {
    [typ] + EncodeUint(channel, 2) + Length32(payload) + payload + tail
  }

  lemma RawRead(typ: Byte, channel: UInt16, payload: Bytes, tail: Bytes)
    ensures ReadFrame(Raw(typ, channel, payload, tail)) ==
            EndOf(DecodePayload(typ, channel, |payload| % U32, payload + tail))
  {
    Widths();
    hide Pow256, DecodeUint, EncodeUint, DecodePayload;
    var c, n := EncodeUint(channel, 2), EncodeUint(|payload| % U32, 4);
    UintRoundTrip(channel, 2);
    UintRoundTrip(|payload| % U32, 4);
    var front := [typ] + c + n;
    assert Raw(typ, channel, payload, tail) == front + (payload + tail);
    FullRoundTrip(front, payload + tail);
    assert front[1..3] == c && front[3..7] == n;
  }

  /** A frame type that is none of the four is refused before its payload is looked at; a heartbeat with a payload crashes. */
  lemma RefusedByType(typ: Byte, channel: UInt16, payload: Bytes, tail: Bytes)
    ensures typ !in {1, 2, 3, 8} ==> ReadFrame(Raw(typ, channel, payload, tail)) == Bad(FrameError, payload + tail)
    ensures 0 < |payload| < U32 ==> ReadFrame(Raw(8, channel, payload, tail)) == Bad(Panic, payload + tail)
  {
    hide ReadFrame, Raw, DecodeHeader, ReadFull;
    RawRead(typ, channel, payload, tail);
    RawRead(8, channel, payload, tail);
  }

  /** Whatever the frame and whatever follows: with any other byte in the place of the end mark it is refused. */
  lemma RefusedByMark(f: Frame, order: seq<Field>, mark: Byte, suffix: Bytes)
    requires Readable(Outgoing(f, order)) && mark != 206
    ensures var b := EncodeFrame(f, order);
            b != [] && ReadFrame(b[..|b| - 1] + [mark] + suffix) == Bad(FrameError, suffix)
  {
    hide Raw, ReadFrame, DecodeHeader, EncodeHeader, ReadFull, Length32;
    var tail := [mark] + suffix;
    assert ReadFull(tail, 1) == Got([mark], suffix) by { FullRoundTrip([mark], suffix); }
    match f
    case HeaderFrame(channel, _, _, _, _) =>
      Unmarked(2, channel, EncodeHeader(f, order), mark, suffix);
      RawRead(2, channel, EncodeHeader(f, order), tail);
      HeaderRoundTrip(f, order, tail);
    case BodyFrame(channel, body) =>
      Unmarked(3, channel, body, mark, suffix);
      RawRead(3, channel, body, tail);
      FullRoundTrip(body, tail);
    case HeartbeatFrame(channel) =>
      Unmarked(8, channel, [], mark, suffix);
      RawRead(8, channel, [], tail);
      assert [] + tail == tail;
  }

  /** A frame without its end mark, and something else in its place. */
  lemma Unmarked(typ: Byte, channel: UInt16, payload: Bytes, mark: Byte, suffix: Bytes)
    ensures var b := Framed(typ, channel, payload);
            b != [] && b[..|b| - 1] + [mark] + suffix == Raw(typ, channel, payload, [mark] + suffix)
  {
    hide EncodeUint, Length32;
    var front := [typ] + EncodeUint(channel, 2) + Length32(payload) + payload;
    assert Framed(typ, channel, payload)[..|front|] == front;
    assert front + [mark] + suffix == front + ([mark] + suffix);
  }

  /**
   * A body frame cut short is an unexpected end, but a plain end where one of the three reads finds
   * nothing at all: before the frame, before its payload, before its end mark.
   */
  lemma CutShort(channel: UInt16, body: Bytes, k: nat)
    requires |body| < U32 && k < |body| + 8
    ensures |EncodeFrame(BodyFrame(channel, body), [])| == |body| + 8
    ensures ReadFrame(EncodeFrame(BodyFrame(channel, body), [])[..k]) ==
            Bad(if k == 0 || k == 7 || k == |body| + 7 then EOF else UnexpectedEOF, [])
  {
    hide DecodeUint, DecodeHeader;
    var b := EncodeFrame(BodyFrame(channel, body), []);
    if k >= 7 {
      CutFront(channel, body, k);
    }
  }

  lemma CutFront(channel: UInt16, body: Bytes, k: nat)
    requires |body| < U32 && 7 <= k < |body| + 8
    ensures var front := ReadFull(EncodeFrame(BodyFrame(channel, body), [])[..k], 7);
            && front.Got? && front.rest == body[..k - 7] && front.value[0] == 3
            && DecodeUint(front.value[3..7]) == |body|
  {
    hide EncodeUint, DecodeUint, Length32;
    var b := EncodeFrame(BodyFrame(channel, body), []);
    FrontReadBack(3, channel, body, []);
    assert b + [] == b && b[..k][..7] == b[..7] && b[..k][7..] == body[..k - 7];
  }

  // ---------------------------------------------------------------- what the round trip preserves

  /** The table is visited key by key, each once. */
  predicate Visits(order: seq<Field>, h: Headers) {
    h.SomeTable? && Erase(OTable(order)) == Table(h.table) && DistinctKeys(OTable(order))
  }

  predicate CleanSlot(slot: Slot, order: seq<Field>) {
    match slot
    case Str(s) => |s| < U8
    case Tab(h) => h.SomeTable? ==> h.table != map[] && Faithful(OTable(order))
    case Num(_) => true
    case Stamp(t) => t.nsec == 0
  }

  /**
   * Properties with nothing the wire cannot carry: short strings under 256 bytes, no empty header
   * table, a table that survives, whole seconds, and nothing in the reserved string.
   */
  predicate Clean(p: Properties, order: seq<Field>) {
    var s := SlotsOf(p);
    p.reserved1 == [] && forall i :: 0 <= i < 14 ==> CleanSlot(s[i], order)
  }

  lemma SlotArrives(s: Slots, order: seq<Field>, i: nat)
    requires i < |s| == 14 && WellKinded(s)
    requires i == 2 && HasTable(s) ==> Visits(order, s[2].h)
    ensures Arrives(s, order, i) == s[i] <==> CleanSlot(s[i], order) && (i == 13 ==> s[13].s == [])
  {
    hide ToMap, NormalPairs, ErasePairs, DistinctKeys, Faithful;
    assert SameKind(s[i], Default(i));
    if i == 2 && HasTable(s) {
      NormalIsErase(OTable(order));
    }
  }

  lemma PropertiesArrive(p: Properties, order: seq<Field>)
    requires HasTable(SlotsOf(p)) ==> Visits(order, p.headers)
    ensures NormalProperties(p, order) == p <==> Clean(p, order)
  {
    hide Arrives, CleanSlot, Visits, NormalProperties, ArriveFrom;
    var s, t := SlotsOf(p), ArriveFrom(SlotsOf(p), order, 0);
    AllKinds(p, order);
    assert s[13].s == p.reserved1 && s[2].h == p.headers;
    forall i | 0 <= i < 14 ensures t[i] == s[i] <==> CleanSlot(s[i], order) && (i == 13 ==> p.reserved1 == []) {
      SlotArrives(s, order, i);
    }
    PropertiesBySlots(NormalProperties(p, order), p);
    if t == s {
      assert t[13] == s[13];
      assert forall i :: 0 <= i < 14 ==> t[i] == s[i];
    }
    if Clean(p, order) {
      assert forall i :: 0 <= i < 14 ==> CleanSlot(s[i], order);
      assert t == s;
    }
  }

  // ---------------------------------------------------------------- what comes off the wire

  ghost predicate SlotFits(slot: Slot) {
    slot.Tab? && slot.h.SomeTable? ==> Fits(Table(slot.h.table))
  }

  lemma DecodedSlotFits(i: nat, r: Bytes)
    ensures DecodeSlot(i, r).Got? ==> SlotFits(DecodeSlot(i, r).value)
  {
    hide DecodeTable, Fits;
    DecodedTableFits(r);
  }

  lemma {:induction false} DecodedSlotsFit(flags: nat, r: Bytes, acc: Slots)
    requires |acc| <= 14 && WellKinded(acc) && forall i :: 0 <= i < |acc| ==> SlotFits(acc[i])
    ensures var res := DecodeSlots(flags, r, acc);
            res.Got? ==> forall i :: 0 <= i < 14 ==> SlotFits(res.value[i])
    decreases 14 - |acc|
  {
    hide DecodeSlot, HasProperty, Flag, Fits;
    var i := |acc|;
    if i < 14 {
      if !HasProperty(flags, Flag(i)) {
        DecodedSlotsFit(flags, r, acc + [Default(i)]);
      } else {
        DecodedSlotFits(i, r);
        var res := DecodeSlot(i, r);
        if res.Got? {
          DecodedSlotsFit(flags, res.rest, acc + [res.value]);
        }
      }
    }
  }

  ghost predicate FrameFits(f: Frame) {
    f.HeaderFrame? ==> SlotFits(Tab(f.properties.headers))
  }

  lemma HeadersFit(s: Slots)
    requires |s| == 14 && WellKinded(s) && forall i :: 0 <= i < 14 ==> SlotFits(s[i])
    ensures SlotFits(Tab(FromSlots(s).headers))
  {
    assert SameKind(s[2], Default(2)) && SlotFits(s[2]);
  }

  lemma DecodedHeaderFits(channel: UInt16, r: Bytes)
    ensures DecodeHeader(channel, r).Got? ==> FrameFits(DecodeHeader(channel, r).value)
  {
    hide ReadUint, DecodeSlots, FromSlots, SlotFits;
    forall flags, rest | DecodeSlots(flags, rest, []).Got?
      ensures SlotFits(Tab(FromSlots(DecodeSlots(flags, rest, []).value).headers))
    {
      DecodedSlotsFit(flags, rest, []);
      HeadersFit(DecodeSlots(flags, rest, []).value);
    }
  }

  /** The header table of any frame that was read is one the writer could have written. */
  lemma DecodedFrameFits(r: Bytes)
    ensures ReadFrame(r).Got? ==> FrameFits(ReadFrame(r).value)
  {
    hide ReadFull, DecodeUint, DecodeHeader, SlotFits;
    forall channel: UInt16, rest: Bytes | DecodeHeader(channel, rest).Got? ensures FrameFits(DecodeHeader(channel, rest).value) {
      DecodedHeaderFits(channel, rest);
    }
  }

  /** Properties that the wire can carry: clean ones, with every length in the header table within its prefix. */
  predicate Carriable(p: Properties, order: seq<Field>) {
    Clean(p, order) && (HasTable(SlotsOf(p)) ==> Good(OTable(order)))
  }

  /**
   * On the wire, with whatever follows: a header frame comes back as it was sent, and leaves what
   * follows, if and only if its properties can be carried.
   */
  lemma {:induction false} HeaderComesBack(f: Frame, order: seq<Field>, suffix: Bytes)
    requires f.HeaderFrame? && (HasTable(SlotsOf(f.properties)) ==> Visits(order, f.properties.headers))
    ensures ReadFrame(EncodeFrame(f, order) + suffix) == Got(f, suffix) <==> Carriable(f.properties, order)
  {
    hide ReadFrame, EncodeFrame, NormalProperties, Clean, SlotsOf, InRange, BlobsFit, Faithful, Fits, Erase, DistinctKeys;
    CleanIsFaithful(f.properties, order);
    if HasTable(SlotsOf(f.properties)) && !(InRange(OTable(order)) && BlobsFit(OTable(order))) {
      DecodedFrameFits(EncodeFrame(f, order) + suffix);
      GoodIsFitting(OTable(order));
    } else {
      FrameRoundTrip(f, order, suffix);
      PropertiesArrive(f.properties, order);
    }
  }

  lemma CleanIsFaithful(p: Properties, order: seq<Field>)
    ensures HasTable(SlotsOf(p)) ==> p.headers.SomeTable?
    ensures Clean(p, order) && HasTable(SlotsOf(p)) ==> Faithful(OTable(order))
  {
    hide Faithful;
    assert SlotsOf(p)[2] == Tab(p.headers);
    if Clean(p, order) {
      assert CleanSlot(SlotsOf(p)[2], order);
    }
  }

  lemma PropertiesBySlots(p: Properties, q: Properties)
    ensures p == q <==> SlotsOf(p) == SlotsOf(q)
    ensures SlotsOf(p) == SlotsOf(q) <==> forall i :: 0 <= i < 14 ==> SlotsOf(p)[i] == SlotsOf(q)[i]
  {
    hide SlotsOf;
    FromSlotsOf(p);
    FromSlotsOf(q);
  }

  lemma FromSlotsOf(p: Properties)
    ensures WellKinded(SlotsOf(p)) && FromSlots(SlotsOf(p)) == p
  {
    AllKinds(p, []);
  }

  // ---------------------------------------------------------------- a stream of frames

  /** A frame and the order in which its headers are visited as it is written. */
  datatype Outgoing = Outgoing(frame: Frame, order: seq<Field>)

  function EncodeStream(out: seq<Outgoing>): Bytes {
    if out == [] then [] else EncodeFrame(out[0].frame, out[0].order) + EncodeStream(out[1..])
  }

  /** The frames read until the stream ends or fails, and how it ended. */
  function ReadStream(r: Bytes): (seq<Frame>, Fault)
    decreases |r|
  {
    match ReadFrame(r)
    case Bad(fault, _) => ([], fault)
    case Got(f, rest) => var more := ReadStream(rest); ([f] + more.0, more.1)
  }

  /** The frame reads back: see FrameRoundTrip. */
  predicate Readable(o: Outgoing) {
    HeaderInRange(o.frame, o.order) && HeaderBlobsFit(o.frame, o.order) && (o.frame.BodyFrame? ==> |o.frame.body| < U32)
  }

  /** Frames of any kinds, one behind the other, are told apart again: each arrives, in order, and then the end. */
  lemma {:induction false} StreamRoundTrip(out: seq<Outgoing>)
    requires forall i :: 0 <= i < |out| ==> Readable(out[i])
    ensures ReadStream(EncodeStream(out)).1 == EOF
    ensures |ReadStream(EncodeStream(out)).0| == |out|
    ensures forall i :: 0 <= i < |out| ==> ReadStream(EncodeStream(out)).0[i] == NormalFrame(out[i].frame, out[i].order)
  {
    if out == [] {
      assert ReadFrame([]) == Bad(EOF, []);
    } else {
      hide EncodeFrame, NormalFrame, HeaderInRange, HeaderBlobsFit, ReadFrame, EncodeStream;
      var first, rest := out[0], out[1..];
      assert Readable(first);
      FrameRoundTrip(first.frame, first.order, EncodeStream(rest));
      StreamRoundTrip(rest);
      StreamUnfolds(out);
      var read := ReadStream(EncodeStream(out)).0;
      assert read == [NormalFrame(first.frame, first.order)] + ReadStream(EncodeStream(rest)).0;
      forall i | 0 <= i < |out| ensures read[i] == NormalFrame(out[i].frame, out[i].order) {
        if i > 0 {
          assert out[i] == rest[i - 1];
        }
      }
    }
  }

  lemma StreamUnfolds(out: seq<Outgoing>)
    requires out != []
    ensures EncodeStream(out) == EncodeFrame(out[0].frame, out[0].order) + EncodeStream(out[1..])
  {}
}
