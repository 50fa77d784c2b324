/** CRYPTO and STREAM frames as bytes: variable-length integers, the two encoders, and reading a payload back. */
module DataFrameCodec {
  import opened FrameSplitting

  // ---- Big-endian digits ----

  function Power(n: nat): (p: nat)
    ensures p > 0
  {
    if n == 0 then 1 else 256 * Power(n - 1)
  }

  /** The low `n` bytes of `value`, most significant first. */
  function Digits(value: nat, n: nat): (r: seq<Byte>)
    ensures |r| == n
  {
    if n == 0 then [] else Digits(value / 256, n - 1) + [value % 256]
  }

  function Number(digits: seq<Byte>): nat {
    if digits == [] then 0 else 256 * Number(digits[..|digits| - 1]) + digits[|digits| - 1]
  }

  lemma {:induction false} DigitsRoundTrip(value: nat, n: nat)
    requires value < Power(n)
    ensures Number(Digits(value, n)) == value
    decreases n
  {
    if n > 0 {
      assert value / 256 < Power(n - 1);
      DigitsRoundTrip(value / 256, n - 1);
      assert Digits(value, n)[..n - 1] == Digits(value / 256, n - 1);
    }
  }

  // ---- Variable-length integers ----

  /** Two-bit length code of the first byte. */
  function LengthCode(n: nat): nat { if n == 1 then 0 else if n == 2 then 1 else if n == 4 then 2 else 3 }

  function CodedLength(code: nat): nat { if code == 0 then 1 else if code == 1 then 2 else if code == 2 then 4 else 8 }

  /** Weight of the first byte's six value bits. */
  function Scale(n: nat): (p: nat)
    ensures p > 0
  {
    if n == 1 then 1 else if n == 2 then 0x100 else if n == 4 then 0x100_0000 else 0x100_0000_0000_0000
  }

  lemma ScaleIs(value: nat)
    ensures Scale(VarintLen(value)) == Power(VarintLen(value) - 1)
  {
    assert Power(1) == 256 && Power(2) == 0x1_0000 && Power(3) == 0x100_0000;
    assert Power(4) == 0x1_0000_0000 && Power(5) == 0x100_0000_0000 && Power(6) == 0x1_0000_0000_0000;
  }

  function Top(value: nat, n: nat): nat { value / Scale(n) }

  function Low(value: nat, n: nat): nat { value % Scale(n) }

  lemma TopDigit(value: nat)
    requires value <= VARINT_MAX
    ensures Top(value, VarintLen(value)) < 64
  {
  }

  function Lead(code: nat, top: nat): Byte
    requires code < 4 && top < 64
  {
    64 * code + top
  }

  function EncodeVarint(value: nat): (r: seq<Byte>)
    requires value <= VARINT_MAX
    ensures |r| == VarintLen(value)
  {
    var n := VarintLen(value);
    TopDigit(value);
    [Lead(LengthCode(n), Top(value, n))] + Digits(Low(value, n), n - 1)
  }

  function Times(a: nat, b: nat): nat { a * b }

  datatype Varint = BufferTooSmall | Value(value: nat, consumed: nat)

  function DecodeVarint(buf: seq<Byte>): (r: Varint)
    ensures r.Value? ==> 0 < r.consumed <= |buf|
  {
    if buf == [] then BufferTooSmall
    else
      var n := CodedLength(buf[0] / 64);
      if |buf| < n then BufferTooSmall
      else Value(Times(buf[0] % 64, Scale(n)) + Number(buf[1..n]), n)
  }

  /** What was encoded is read back, whatever follows it, and nothing of what follows is consumed. */
  lemma VarintRoundTrip(value: nat, rest: seq<Byte>)
    requires value <= VARINT_MAX
    ensures DecodeVarint(EncodeVarint(value) + rest) == Value(value, VarintLen(value))
  {
    hide Digits, Number, Scale, Power, Times, Top, Low, Lead;
    var n := VarintLen(value);
    var buf := EncodeVarint(value) + rest;
    TopDigit(value);
    LeadParts(n, Top(value, n));
    assert buf[0] == Lead(LengthCode(n), Top(value, n));
    assert buf[1..n] == Digits(Low(value, n), n - 1);
    Recompose(value);
    DigitsRoundTrip(Low(value, n), n - 1);
  }

  lemma LeadParts(n: nat, top: nat)
    requires top < 64 && (n == 1 || n == 2 || n == 4 || n == 8)
    ensures CodedLength(Lead(LengthCode(n), top) / 64) == n && Lead(LengthCode(n), top) % 64 == top
  {
  }

  lemma Recompose(value: nat)
    ensures var n := VarintLen(value);
      Times(Top(value, n), Scale(n)) + Low(value, n) == value && Low(value, n) < Power(n - 1)
  {
    ScaleIs(value);
  }

  // ---- Frames ----

  function EncodeFrame(f: Frame): (r: seq<Byte>)
    requires IsData(f) && Encodable(f)
    ensures |r| == EncodedLen(f)
  {
    match f
    case Crypto(offset, data) => EncodeVarint(0x06) + EncodeVarint(offset) + EncodeVarint(|data|) + data
    case Stream(streamId, offset, fin, data) =>
      EncodeVarint(if fin then 0x0f else 0x0e) + EncodeVarint(streamId) + EncodeVarint(offset) +
      EncodeVarint(|data|) + data
  }

  datatype Decoded = Invalid | Got(frame: Frame, consumed: nat)

  /** What a payload holds: a data frame, a byte of padding, or a frame of another type with its fields as bytes. */
  datatype Item = Data(frame: Frame) | Padding | Other(kind: nat, fields: seq<Byte>)

  /** How many bytes the fields of a frame take, if they are whole and valid. */
  datatype Extent = Refused | Extent(length: nat)

  datatype DecodedItem = InvalidItem | GotItem(item: Item, consumed: nat)

  /** The readers of the other frame types, by type: what lies ahead decides how far the fields go, within it. */
  ghost predicate ReadsWithin(other: (nat, seq<Byte>) -> Extent) {
    forall t: nat, ahead: seq<Byte> :: other(t, ahead).Extent? ==> other(t, ahead).length <= |ahead|
  }

  /** A length field and that many bytes. */
  datatype Field = BadField | Bytes(data: seq<Byte>, consumed: nat)

  function DecodeData(buf: seq<Byte>): (r: Field)
    ensures r.Bytes? ==> r.consumed <= |buf|
  {
    match DecodeVarint(buf)
    case BufferTooSmall => BadField
    case Value(length, n) => if |buf| < n + length then BadField else Bytes(buf[n..n + length], n + length)
  }

  function DecodeCrypto(buf: seq<Byte>): (r: Decoded)
    ensures r.Got? ==> r.consumed <= |buf|
  {
    match DecodeVarint(buf)
    case BufferTooSmall => Invalid
    case Value(offset, n) =>
      match DecodeData(buf[n..])
      case BadField => Invalid
      case Bytes(data, m) => Got(Crypto(offset, data), n + m)
  }

  /** The type's low bits say whether an offset and a length follow, and carry FIN. */
  function DecodeStream(buf: seq<Byte>, hasOffset: bool, hasLength: bool, fin: bool): (r: Decoded)
    ensures r.Got? ==> r.consumed <= |buf|
  {
    match DecodeVarint(buf)
    case BufferTooSmall => Invalid
    case Value(streamId, n) =>
      match (if hasOffset then DecodeVarint(buf[n..]) else Value(0, 0))
      case BufferTooSmall => Invalid
      case Value(offset, m) =>
        match (if hasLength then DecodeData(buf[n + m..]) else Bytes(buf[n + m..], |buf| - n - m))
        case BadField => Invalid
        case Bytes(data, k) => Got(Stream(streamId, offset, fin, data), n + m + k)
  }

  /** The fields of a frame of type `t`. */
  function DecodeFields(t: nat, ahead: seq<Byte>, other: (nat, seq<Byte>) -> Extent): (r: DecodedItem)
    requires ReadsWithin(other)
    ensures r.GotItem? ==> r.consumed <= |ahead|
  {
    if t == 0x06 || 0x08 <= t <= 0x0f then
      var d :=
        if t == 0x06 then DecodeCrypto(ahead)
        else DecodeStream(ahead, t / 4 % 2 == 1, t / 2 % 2 == 1, t % 2 == 1);
      if d.Got? then GotItem(Data(d.frame), d.consumed) else InvalidItem
    else
      match other(t, ahead)
      case Refused => InvalidItem
      case Extent(n) => GotItem(Other(t, ahead[..n]), n)
  }

  /** Padding is a zero byte; any other frame is its type followed by the fields of that type. */
  function DecodeFrame(buf: seq<Byte>, other: (nat, seq<Byte>) -> Extent): (r: DecodedItem)
    requires ReadsWithin(other)
    ensures r.GotItem? ==> 0 < r.consumed <= |buf|
  {
    if buf == [] then InvalidItem
    else if buf[0] == 0x00 then GotItem(Padding, 1)
    else
      match DecodeVarint(buf)
      case BufferTooSmall => InvalidItem
      case Value(t, n) =>
        var d := DecodeFields(t, buf[n..], other);
        if d.GotItem? then GotItem(d.item, n + d.consumed) else InvalidItem
  }

  lemma DataRoundTrip(data: seq<Byte>, rest: seq<Byte>)
    requires |data| <= VARINT_MAX
    ensures DecodeData(EncodeVarint(|data|) + data + rest) == Bytes(data, VarintLen(|data|) + |data|)
  {
    hide DecodeVarint, EncodeVarint;
    var head := EncodeVarint(|data|);
    VarintRoundTrip(|data|, data + rest);
    assert head + data + rest == head + (data + rest);
    assert (head + data + rest)[|head|..|head| + |data|] == data;
  }

  lemma CryptoRoundTrip(offset: nat, data: seq<Byte>, rest: seq<Byte>)
    requires offset <= VARINT_MAX && |data| <= VARINT_MAX
    ensures DecodeCrypto(EncodeVarint(offset) + (EncodeVarint(|data|) + data + rest)) ==
      Got(Crypto(offset, data), VarintLen(offset) + VarintLen(|data|) + |data|)
  {
    hide DecodeVarint, EncodeVarint, DecodeData;
    var tail := EncodeVarint(|data|) + data + rest;
    VarintRoundTrip(offset, tail);
    DataRoundTrip(data, rest);
    assert (EncodeVarint(offset) + tail)[VarintLen(offset)..] == tail;
  }

  lemma StreamRoundTrip(streamId: nat, offset: nat, fin: bool, data: seq<Byte>, rest: seq<Byte>)
    requires streamId <= VARINT_MAX && offset <= VARINT_MAX && |data| <= VARINT_MAX
    ensures
      DecodeStream(EncodeVarint(streamId) + (EncodeVarint(offset) + (EncodeVarint(|data|) + data + rest)),
                   true, true, fin) ==
      Got(Stream(streamId, offset, fin, data), VarintLen(streamId) + VarintLen(offset) + VarintLen(|data|) + |data|)
  {
    hide DecodeVarint, EncodeVarint, DecodeData;
    var tail := EncodeVarint(|data|) + data + rest;
    var buf := EncodeVarint(streamId) + (EncodeVarint(offset) + tail);
    VarintRoundTrip(streamId, EncodeVarint(offset) + tail);
    VarintRoundTrip(offset, tail);
    DataRoundTrip(data, rest);
    assert buf[VarintLen(streamId)..] == EncodeVarint(offset) + tail;
    assert buf[VarintLen(streamId) + VarintLen(offset)..] == tail;
  }

  lemma Regroup4(a: seq<Byte>, b: seq<Byte>, c: seq<Byte>, d: seq<Byte>, rest: seq<Byte>)
    ensures a + b + c + d + rest == a + (b + (c + d + rest))
  {
  }

  lemma Regroup5(a: seq<Byte>, b: seq<Byte>, c: seq<Byte>, d: seq<Byte>, e: seq<Byte>, rest: seq<Byte>)
    ensures a + b + c + d + e + rest == a + (b + (c + (d + e + rest)))
  {
  }

  lemma DecodeTyped(t: nat, tail: seq<Byte>, other: (nat, seq<Byte>) -> Extent)
    requires ReadsWithin(other) && 0 < t < 0x40
    ensures var d := DecodeFields(t, tail, other);
      DecodeFrame(EncodeVarint(t) + tail, other) ==
        if d.GotItem? then GotItem(d.item, 1 + d.consumed) else InvalidItem
  {
    hide DecodeVarint, EncodeVarint, DecodeFields;
    VarintRoundTrip(t, tail);
    OneByte(t);
    assert (EncodeVarint(t) + tail)[1..] == tail;
  }

  lemma OneByte(t: nat)
    requires t < 0x40
    ensures EncodeVarint(t) == [t]
  {
  }

  /** Every data frame that encodes is read back, whatever follows it, and takes exactly its encoded size. */
  lemma FrameRoundTrip(f: Frame, rest: seq<Byte>, other: (nat, seq<Byte>) -> Extent)
    requires IsData(f) && Encodable(f) && ReadsWithin(other)
    ensures DecodeFrame(EncodeFrame(f) + rest, other) == GotItem(Data(f), EncodedLen(f))
  {
    hide DecodeVarint, EncodeVarint, DecodeCrypto, DecodeStream, DecodeFrame;
    match f
    case Crypto(offset, data) =>
      Regroup4(EncodeVarint(0x06), EncodeVarint(offset), EncodeVarint(|data|), data, rest);
      CryptoRoundTrip(offset, data, rest);
      DecodeTyped(0x06, EncodeVarint(offset) + (EncodeVarint(|data|) + data + rest), other);
    case Stream(streamId, offset, fin, data) =>
      var t := if fin then 0x0f else 0x0e;
      Regroup5(EncodeVarint(t), EncodeVarint(streamId), EncodeVarint(offset), EncodeVarint(|data|), data, rest);
      StreamRoundTrip(streamId, offset, fin, data, rest);
      DecodeTyped(t, EncodeVarint(streamId) + (EncodeVarint(offset) + (EncodeVarint(|data|) + data + rest)), other);
  }

  // ---- The eight forms of a STREAM frame ----

  /** A STREAM frame by section 19.8 of RFC 9000, its offset and length fields there or not. */
  ghost function StreamForm(streamId: nat, offset: nat, fin: bool, data: seq<Byte>, hasOffset: bool, hasLength: bool):
    seq<Byte>
    requires streamId <= VARINT_MAX && offset <= VARINT_MAX && |data| <= VARINT_MAX
  {
    EncodeVarint(FormType(fin, hasOffset, hasLength)) +
    (EncodeVarint(streamId) + (OffsetField(offset, hasOffset) + DataField(data, hasLength)))
  }

  function FormType(fin: bool, hasOffset: bool, hasLength: bool): nat {
    0x08 + (if hasOffset then 4 else 0) + (if hasLength then 2 else 0) + (if fin then 1 else 0)
  }

  function OffsetField(offset: nat, hasOffset: bool): seq<Byte>
    requires offset <= VARINT_MAX
  {
    if hasOffset then EncodeVarint(offset) else []
  }

  function DataField(data: seq<Byte>, hasLength: bool): seq<Byte>
    requires |data| <= VARINT_MAX
  {
    (if hasLength then EncodeVarint(|data|) else []) + data
  }

  lemma OffsetRead(offset: nat, hasOffset: bool, tail: seq<Byte>)
    requires offset <= VARINT_MAX && (hasOffset || offset == 0)
    ensures var field := OffsetField(offset, hasOffset);
      (if hasOffset then DecodeVarint(field + tail) else Value(0, 0)) == Value(offset, |field|)
  {
    hide DecodeVarint, EncodeVarint;
    if hasOffset {
      VarintRoundTrip(offset, tail);
    }
  }

  lemma DataRead(data: seq<Byte>, hasLength: bool, rest: seq<Byte>)
    requires |data| <= VARINT_MAX && (hasLength || rest == [])
    ensures var field := DataField(data, hasLength);
      (if hasLength then DecodeData(field + rest) else Bytes(field + rest, |field + rest|)) == Bytes(data, |field|)
  {
    hide DecodeVarint, EncodeVarint, DecodeData;
    if hasLength {
      DataRoundTrip(data, rest);
    } else {
      assert DataField(data, hasLength) + rest == data;
    }
  }

  lemma FormFields(streamId: nat, offset: nat, fin: bool, data: seq<Byte>, hasOffset: bool, hasLength: bool,
                   rest: seq<Byte>)
    requires streamId <= VARINT_MAX && offset <= VARINT_MAX && |data| <= VARINT_MAX
    requires (hasOffset || offset == 0) && (hasLength || rest == [])
    ensures var fields := EncodeVarint(streamId) + (OffsetField(offset, hasOffset) + DataField(data, hasLength));
      DecodeStream(fields + rest, hasOffset, hasLength, fin) == Got(Stream(streamId, offset, fin, data), |fields|)
  {
    hide DecodeVarint, EncodeVarint, DecodeData, OffsetField, DataField;
    var id, second, third := EncodeVarint(streamId), OffsetField(offset, hasOffset), DataField(data, hasLength);
    var buf := id + (second + third) + rest;
    assert buf == id + (second + (third + rest));
    VarintRoundTrip(streamId, second + (third + rest));
    OffsetRead(offset, hasOffset, third + rest);
    DataRead(data, hasLength, rest);
    assert buf[|id|..] == second + (third + rest);
    assert buf[|id| + |second|..] == third + rest;
  }

  /** Every form is read back: without an offset field as offset 0, without a length field to the end of the payload. */
  lemma StreamFormRoundTrip(streamId: nat, offset: nat, fin: bool, data: seq<Byte>, hasOffset: bool, hasLength: bool,
                            rest: seq<Byte>, other: (nat, seq<Byte>) -> Extent)
    requires streamId <= VARINT_MAX && offset <= VARINT_MAX && |data| <= VARINT_MAX && ReadsWithin(other)
    requires (hasOffset || offset == 0) && (hasLength || rest == [])
    ensures var bytes := StreamForm(streamId, offset, fin, data, hasOffset, hasLength);
      DecodeFrame(bytes + rest, other) == GotItem(Data(Stream(streamId, offset, fin, data)), |bytes|)
  {
    hide DecodeVarint, EncodeVarint, DecodeStream, DecodeFrame, DecodeCrypto, OffsetField, DataField;
    var fields := EncodeVarint(streamId) + (OffsetField(offset, hasOffset) + DataField(data, hasLength));
    var t := FormType(fin, hasOffset, hasLength);
    FormFields(streamId, offset, fin, data, hasOffset, hasLength, rest);
    OneByte(t);
    DecodeTyped(t, fields + rest, other);
    assert EncodeVarint(t) + fields + rest == EncodeVarint(t) + (fields + rest);
  }

  // ---- Payloads ----

  /** The item encodes: a data frame in range, padding, or a frame of another type whose reader finds the end of its
      fields whatever follows them. */
  ghost predicate ItemOk(x: Item, other: (nat, seq<Byte>) -> Extent) {
    match x
    case Data(f) => IsData(f) && Encodable(f)
    case Padding => true
    case Other(t, fields) =>
      && 0 < t < 0x40 && t != 0x06 && !(0x08 <= t <= 0x0f)
      && forall rest: seq<Byte> :: other(t, fields + rest) == Extent(|fields|)
  }

  ghost predicate AllOk(xs: seq<Item>, other: (nat, seq<Byte>) -> Extent) {
    forall i :: 0 <= i < |xs| ==> ItemOk(xs[i], other)
  }

  ghost function EncodeItem(x: Item, other: (nat, seq<Byte>) -> Extent): seq<Byte>
    requires ItemOk(x, other)
  {
    match x
    case Data(f) => EncodeFrame(f)
    case Padding => [0x00]
    case Other(t, fields) => EncodeVarint(t) + fields
  }

  ghost function EncodeAll(xs: seq<Item>, other: (nat, seq<Byte>) -> Extent): seq<Byte>
    requires AllOk(xs, other)
  {
    if xs == [] then [] else EncodeItem(xs[0], other) + EncodeAll(xs[1..], other)
  }

  /** Every item is read back, whatever follows it. */
  lemma ItemRoundTrip(x: Item, rest: seq<Byte>, other: (nat, seq<Byte>) -> Extent)
    requires ItemOk(x, other) && ReadsWithin(other)
    ensures EncodeItem(x, other) != []
    ensures DecodeFrame(EncodeItem(x, other) + rest, other) == GotItem(x, |EncodeItem(x, other)|)
  {
    hide DecodeVarint, EncodeVarint, DecodeCrypto, DecodeStream;
    match x
    case Data(f) => FrameRoundTrip(f, rest, other); Nonempty(f);
    case Padding =>
    case Other(t, fields) => OtherRoundTrip(t, fields, rest, other);
  }

  lemma Nonempty(f: Frame)
    requires IsData(f) && Encodable(f)
    ensures EncodedLen(f) > 0
  {
  }

  lemma OtherRoundTrip(t: nat, fields: seq<Byte>, rest: seq<Byte>, other: (nat, seq<Byte>) -> Extent)
    requires ItemOk(Other(t, fields), other) && ReadsWithin(other)
    ensures |EncodeVarint(t)| == 1
    ensures DecodeFrame(EncodeVarint(t) + fields + rest, other) == GotItem(Other(t, fields), 1 + |fields|)
  {
    hide EncodeVarint, DecodeVarint, DecodeFrame, DecodeCrypto, DecodeStream;
    OneByte(t);
    DecodeTyped(t, fields + rest, other);
    assert EncodeVarint(t) + fields + rest == EncodeVarint(t) + (fields + rest);
    assert (fields + rest)[..|fields|] == fields;
  }

  datatype Payload = InvalidPayload | Items(items: seq<Item>)

  function Prepended(done: seq<Item>, rest: Payload): Payload {
    if rest.Items? then Items(done + rest.items) else InvalidPayload
  }

  /** One frame after another until the payload is used up. */
  function DecodeAll(buf: seq<Byte>, other: (nat, seq<Byte>) -> Extent): Payload
    requires ReadsWithin(other)
    decreases |buf|
  {
    if buf == [] then Items([])
    else
      match DecodeFrame(buf, other)
      case InvalidItem => InvalidPayload
      case GotItem(x, n) => Prepended([x], DecodeAll(buf[n..], other))
  }

  method DecodeFrames(payload: seq<Byte>, other: (nat, seq<Byte>) -> Extent) returns (r: Payload)
    requires ReadsWithin(other)
    ensures r == DecodeAll(payload, other)
  {
    hide DecodeFrame, ReadsWithin;
    var buf := payload;
    var items := [];
    while buf != []
      invariant DecodeAll(payload, other) == Prepended(items, DecodeAll(buf, other))
      decreases |buf|
    {
      var d := DecodeFrame(buf, other);
      if d == InvalidItem {
        return InvalidPayload;
      }
      PrependedOne(items, d.item, DecodeAll(buf[d.consumed..], other));
      items := items + [d.item];
      buf := buf[d.consumed..];
    }
    return Items(items);
  }

  lemma PrependedOne(done: seq<Item>, x: Item, rest: Payload)
    ensures Prepended(done, Prepended([x], rest)) == Prepended(done + [x], rest)
  {
    assert rest.Items? ==> done + ([x] + rest.items) == done + [x] + rest.items;
  }

  /** A payload of data frames, padding and frames of any other types is read back as exactly those, none merged, split
      or lost. */
  lemma {:induction false} PayloadRoundTrip(xs: seq<Item>, other: (nat, seq<Byte>) -> Extent)
    requires AllOk(xs, other) && ReadsWithin(other)
    ensures DecodeAll(EncodeAll(xs, other), other) == Items(xs)
    decreases |xs|
  {
    hide DecodeFrame, EncodeItem, ItemOk, DecodeAll, ReadsWithin;
    if xs == [] {
      DecodeNone(other);
    } else {
      var rest := EncodeAll(xs[1..], other);
      ItemRoundTrip(xs[0], rest, other);
      PayloadRoundTrip(xs[1..], other);
      DecodeCons(xs[0], EncodeItem(xs[0], other), rest, other);
      assert [xs[0]] + xs[1..] == xs;
    }
  }

  lemma DecodeNone(other: (nat, seq<Byte>) -> Extent)
    requires ReadsWithin(other)
    ensures DecodeAll([], other) == Items([])
  {
  }

  lemma DecodeCons(x: Item, bytes: seq<Byte>, rest: seq<Byte>, other: (nat, seq<Byte>) -> Extent)
    requires ReadsWithin(other) && bytes != [] && DecodeFrame(bytes + rest, other) == GotItem(x, |bytes|)
    ensures DecodeAll(bytes + rest, other) == Prepended([x], DecodeAll(rest, other))
  {
    hide DecodeFrame;
    assert (bytes + rest)[|bytes|..] == rest;
  }

  /** The two parts of a split are read back as they were cut, and the head's bytes stay within the budget. */
  lemma SplitOnTheWire(f: Frame, budget: nat, other: (nat, seq<Byte>) -> Extent)
    requires CanSplit(f, budget) && Encodable(Tail(f, SplitLen(f, budget))) && ReadsWithin(other)
    ensures var n := SplitLen(f, budget);
      && n < |f.data|
      && AllOk([Data(Head(f, n)), Data(Tail(f, n))], other)
      && DecodeAll(EncodeAll([Data(Head(f, n)), Data(Tail(f, n))], other), other) ==
           Items([Data(Head(f, n)), Data(Tail(f, n))])
      && |EncodeFrame(Head(f, n))| <= budget
  {
    hide DecodeAll, EncodeAll, ReadsWithin;
    SplitIsOptimal(f, budget);
    var n := SplitLen(f, budget);
    PayloadRoundTrip([Data(Head(f, n)), Data(Tail(f, n))], other);
  }
}
