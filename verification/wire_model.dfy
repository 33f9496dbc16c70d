/** The wire format: fields, growing buffers, and framed packages. */
module WireModel {
  import opened Common

  const MAX_STRING_LENGTH: nat := 0x10_0000
  const MAX_DATA_SIZE: nat := 0xA0_0000
  const MAX_BUFFER_SIZE: nat := 0x640_0000
  const INITIAL_SIZE: nat := 256
  const TWO16: nat := 0x1_0000
  const TWO32: nat := 0x1_0000_0000

  datatype Field = U8(b: Byte) | U16(h: nat) | U32(w: nat) | Text(chars: seq<Byte>) | Data(bytes: seq<Byte>)

  datatype Kind = KU8 | KU16 | KU32 | KText | KData

  /** t_buffer; its size is the length of the stream. */
  datatype Buf = Buf(stream: seq<Byte>, offset: nat, dynamic: bool)

  const NEW_BUFFER := Buf(Zeros(INITIAL_SIZE), 0, true)

  // ---------------------------------------------------------------- encoding of fields

  /** Network byte order. */
  function BE16(v: nat): (r: seq<Byte>)
    requires v < TWO16
    ensures |r| == 2
  {
    [(v / 256) as Byte, (v % 256) as Byte]
  }

  function BE32(v: nat): (r: seq<Byte>)
    requires v < TWO32
    ensures |r| == 4
  {
    BE16(v / TWO16) + BE16(v % TWO16)
  }

  function FromBE16(s: seq<Byte>): (v: nat)
    requires |s| == 2
    ensures v < TWO16
  {
    s[0] as nat * 256 + s[1] as nat
  }

  function FromBE32(s: seq<Byte>): (v: nat)
    requires |s| == 4
    ensures v < TWO32
  {
    FromBE16(s[..2]) * TWO16 + FromBE16(s[2..])
  }

  lemma BE16RoundTrip(v: nat)
    requires v < TWO16
    ensures FromBE16(BE16(v)) == v
  {
  }

  lemma BE32RoundTrip(v: nat)
    requires v < TWO32
    ensures FromBE32(BE32(v)) == v
  {
    BE16RoundTrip(v / TWO16);
    BE16RoundTrip(v % TWO16);
    assert BE32(v)[..2] == BE16(v / TWO16) && BE32(v)[2..] == BE16(v % TWO16);
  }

  predicate InRange(f: Field) {
    match f
    case U16(v) => v < TWO16
    case U32(v) => v < TWO32
    case _ => true
  }

  /** strlen as the uint32_t that the format stores. */
  function StoredLength(chars: seq<Byte>): (n: nat)
    ensures n < TWO32 && n <= |chars|
  {
    |chars| % TWO32
  }

  /** The bytes of a field; the length of binary data is stored in 32 bits as well. */
  function Encode(f: Field): seq<Byte>
    requires InRange(f)
  {
    match f
    case U8(v) => [v]
    case U16(v) => BE16(v)
    case U32(v) => BE32(v)
    case Text(chars) => BE32(StoredLength(chars)) + chars[..StoredLength(chars)]
    case Data(bytes) => BE32(|bytes| % TWO32) + bytes
  }

  function EncodeAll(fs: seq<Field>): seq<Byte>
    requires forall f :: f in fs ==> InRange(f)
  {
    if fs == [] then [] else Encode(fs[0]) + EncodeAll(fs[1..])
  }

  // ---------------------------------------------------------------- writing

  /** The doubling loop of buffer_expand. */
  function GrownSize(size: nat, needed: nat): (r: nat)
    requires 0 < size
    ensures r >= needed && r >= size
    decreases needed - size
  {
    if size >= needed then size else GrownSize(2 * size, needed)
  }

  /** buffer_has_capacity: a dynamic buffer grows, keeping its bytes and zeroing the rest. */
  function Reserve(b: Buf, n: nat): (r: Option<Buf>)
    requires b.offset <= |b.stream| && 0 < |b.stream|
    ensures r.Some? ==> r.value.offset == b.offset && b.offset + n <= |r.value.stream| && |b.stream| <= |r.value.stream|
    ensures r.Some? ==> r.value.dynamic == b.dynamic && r.value.stream[..|b.stream|] == b.stream
  {
    if n <= |b.stream| - b.offset then Some(b)
    else if !b.dynamic then None
    else
      var size := GrownSize(|b.stream|, b.offset + n);
      if size > MAX_BUFFER_SIZE then None else Some(b.(stream := b.stream + Zeros(size - |b.stream|)))
  }

  function Put(b: Buf, bytes: seq<Byte>): Buf
    requires b.offset + |bytes| <= |b.stream|
  {
    b.(stream := Patch(b.stream, b.offset, bytes), offset := b.offset + |bytes|)
  }

  /** The buffer_write functions: empty binary data is refused, and nothing is written when space is missing. */
  function Write(b: Buf, f: Field): (r: Option<Buf>)
    requires b.offset <= |b.stream| && 0 < |b.stream| && InRange(f)
    ensures r.Some? ==> r.value.offset <= |r.value.stream| && 0 < |r.value.stream|
  {
    if f.Data? && |f.bytes| == 0 then None
    else
      match Reserve(b, |Encode(f)|)
      case None => None
      case Some(grown) => Some(Put(grown, Encode(f)))
  }

  function WriteAll(b: Buf, fs: seq<Field>): (r: Option<Buf>)
    requires b.offset <= |b.stream| && 0 < |b.stream| && forall f :: f in fs ==> InRange(f)
    ensures r.Some? ==> r.value.offset <= |r.value.stream| && 0 < |r.value.stream|
    decreases |fs|
  {
    if fs == [] then Some(b)
    else
      match Write(b, fs[0])
      case None => None
      case Some(next) => WriteAll(next, fs[1..])
  }

  // ---------------------------------------------------------------- reading

  function Take(b: Buf, n: nat): (r: seq<Byte>)
    requires b.offset + n <= |b.stream|
    ensures |r| == n
  {
    b.stream[b.offset..b.offset + n]
  }

  function Skip(b: Buf, n: nat): Buf {
    b.(offset := b.offset + n)
  }

  function KindOf(f: Field): Kind {
    match f
    case U8(_) => KU8
    case U16(_) => KU16
    case U32(_) => KU32
    case Text(_) => KText
    case Data(_) => KData
  }

  /** The buffer_read functions. The offset stays when the field cannot be read; binary data that a dynamic
      buffer does not hold makes the buffer grow and is read as zeros. */
  function Read(b: Buf, k: Kind): (r: (Buf, Option<Field>))
    requires b.offset <= |b.stream| && 0 < |b.stream|
    ensures r.0.offset <= |r.0.stream| && 0 < |r.0.stream|
  {
    var left := |b.stream| - b.offset;
    match k
    case KU8 => if left < 1 then (b, None) else (Skip(b, 1), Some(U8(b.stream[b.offset])))
    case KU16 => if left < 2 then (b, None) else (Skip(b, 2), Some(U16(FromBE16(Take(b, 2)))))
    case KU32 => if left < 4 then (b, None) else (Skip(b, 4), Some(U32(FromBE32(Take(b, 4)))))
    case KText =>
      if left < 4 then (b, None)
      else
        var n := FromBE32(Take(b, 4));
        if n > MAX_STRING_LENGTH || left - 4 < n then (b, None)
        else (Skip(b, 4 + n), Some(Text(Take(Skip(b, 4), n))))
    case KData =>
      if left < 4 then (b, None)
      else
        var n := FromBE32(Take(b, 4));
        if n > MAX_DATA_SIZE then (b, None)
        else
          match Reserve(Skip(b, 4), n)
          case None => (b, None)
          case Some(grown) => (Skip(grown, n), Some(Data(Take(grown, n))))
  }

  function ReadAll(b: Buf, ks: seq<Kind>): Option<seq<Field>>
    requires b.offset <= |b.stream| && 0 < |b.stream|
    decreases |ks|
  {
    if ks == [] then Some([])
    else
      var (next, f) := Read(b, ks[0]);
      if f.None? then None
      else
        match ReadAll(next, ks[1..])
        case None => None
        case Some(rest) => Some([f.value] + rest)
  }

  function Kinds(fs: seq<Field>): seq<Kind> {
    seq(|fs|, i requires 0 <= i < |fs| => KindOf(fs[i]))
  }

  // ---------------------------------------------------------------- packages

  /** package_send: the operation, the size, and the whole buffer, whatever part of it was written. */
  function Send(op: Byte, b: Buf): seq<Byte> {
    [op] + BE32(|b.stream| % TWO32) + b.stream[..|b.stream| % TWO32]
  }

  /** package_receive on what arrives; the result is the operation, a fixed buffer, and what is left. */
  function Receive(bytes: seq<Byte>): Option<(Byte, Buf, seq<Byte>)> {
    if |bytes| < 5 then None
    else
      var n := FromBE32(bytes[1..5]);
      if n > MAX_BUFFER_SIZE || n == 0 || |bytes| < 5 + n then None
      else Some((bytes[0], Buf(bytes[5..5 + n], 0, false), bytes[5 + n..]))
  }
}
