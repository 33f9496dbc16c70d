/** What is written reads back, through any number of buffer doublings and packages. */
module WireTheorems {
  import opened Common
  import opened WireModel

  /** The limits of the readers. */
  predicate Readable(f: Field) {
    match f
    case U16(v) => v < TWO16
    case U32(v) => v < TWO32
    case Text(chars) => |chars| <= MAX_STRING_LENGTH
    case Data(bytes) => 0 < |bytes| <= MAX_DATA_SIZE
    case U8(_) => true
  }

  // ---------------------------------------------------------------- byte order

  /** The number that a sequence of bytes denotes with the most significant byte first. */
  function BigEndian(bytes: seq<Byte>): nat {
    if bytes == [] then 0 else BigEndian(bytes[..|bytes| - 1]) * 256 + bytes[|bytes| - 1] as nat
  }

  lemma BigEndianSnoc(bytes: seq<Byte>, last: Byte)
    ensures BigEndian(bytes + [last]) == BigEndian(bytes) * 256 + last as nat
  {
    assert (bytes + [last])[..|bytes|] == bytes;
  }

  lemma BigEndianTwo(s: seq<Byte>)
    requires |s| == 2
    ensures BigEndian(s) == s[0] as nat * 256 + s[1] as nat
  {
    assert s == ([] + [s[0]]) + [s[1]];
    BigEndianSnoc([], s[0]);
    BigEndianSnoc([s[0]], s[1]);
  }

  lemma BigEndianFour(s: seq<Byte>)
    requires |s| == 4
    ensures BigEndian(s) == ((s[0] as nat * 256 + s[1] as nat) * 256 + s[2] as nat) * 256 + s[3] as nat
  {
    assert s == (s[..2] + [s[2]]) + [s[3]];
    BigEndianTwo(s[..2]);
    BigEndianSnoc(s[..2], s[2]);
    BigEndianSnoc(s[..2] + [s[2]], s[3]);
  }

  /** Network byte order, on the way out and on the way in: the bytes of an integer field denote its value with
      the high byte first, and any bytes are read as the number they denote that way. */
  lemma NetworkByteOrder(h: nat, w: nat, s: seq<Byte>)
    requires h < TWO16 && w < TWO32
    ensures BigEndian(Encode(U16(h))) == h && BigEndian(Encode(U32(w))) == w
    ensures Encode(U16(h))[0] as nat == h / 0x100 && Encode(U32(w))[0] as nat == w / 0x100_0000
    ensures |s| == 2 ==> FromBE16(s) == BigEndian(s)
    ensures |s| == 4 ==> FromBE32(s) == BigEndian(s)
  {
    BigEndianTwo(BE16(h));
    BigEndianFour(BE32(w));
    BE32RoundTrip(w);
    if |s| == 2 {
      BigEndianTwo(s);
    }
    if |s| == 4 {
      BigEndianFour(s);
    }
  }

  /** Next in the buffer come these bytes. */
  ghost predicate Comes(b: Buf, bytes: seq<Byte>) {
    b.offset + |bytes| <= |b.stream| && b.stream[b.offset..b.offset + |bytes|] == bytes
  }

  lemma ComesSplit(b: Buf, x: seq<Byte>, y: seq<Byte>)
    ensures Comes(b, x + y) <==> Comes(b, x) && Comes(Skip(b, |x|), y)
  {
    if b.offset + |x + y| <= |b.stream| {
      var all := b.stream[b.offset..b.offset + |x + y|];
      assert all[..|x|] == b.stream[b.offset..b.offset + |x|];
      assert all[|x|..] == b.stream[b.offset + |x|..b.offset + |x| + |y|];
      assert all == all[..|x|] + all[|x|..];
      assert (x + y)[..|x|] == x && (x + y)[|x|..] == y;
    }
  }

  /** A field with a stored length is read back exactly when the length is within the reader's limit. */
  lemma TextReadableIff(b: Buf, chars: seq<Byte>)
    requires b.offset <= |b.stream| && 0 < |b.stream| && |chars| < TWO32 && Comes(b, Encode(Text(chars)))
    ensures Read(b, KText).1 == Some(Text(chars)) <==> |chars| <= MAX_STRING_LENGTH
    ensures |chars| <= MAX_STRING_LENGTH ==> Read(b, KText).0 == Skip(b, |Encode(Text(chars))|)
  {
    BE32RoundTrip(|chars|);
    ComesSplit(b, BE32(|chars|), chars);
    assert chars[..StoredLength(chars)] == chars;
    hide BE32, FromBE32;
    assert Take(b, 4) == BE32(|chars|);
  }

  lemma DataReadableIff(b: Buf, bytes: seq<Byte>)
    requires b.offset <= |b.stream| && 0 < |b.stream| && |bytes| < TWO32 && Comes(b, Encode(Data(bytes)))
    ensures Read(b, KData).1 == Some(Data(bytes)) <==> |bytes| <= MAX_DATA_SIZE
    ensures |bytes| <= MAX_DATA_SIZE ==> Read(b, KData).0 == Skip(b, |Encode(Data(bytes))|)
  {
    var n := |bytes|;
    BE32RoundTrip(n);
    ComesSplit(b, BE32(n), bytes);
    ComesTake(b, BE32(n));
    ComesTake(Skip(b, 4), bytes);
    hide BE32, FromBE32, GrownSize, Comes, Reserve;
    assert Reserve(Skip(b, 4), n) == Some(Skip(b, 4)) by { EnoughLeft(Skip(b, 4), n); }
  }

  lemma ComesTake(b: Buf, bytes: seq<Byte>)
    requires Comes(b, bytes)
    ensures b.offset + |bytes| <= |b.stream| && Take(b, |bytes|) == bytes
  {
  }

  lemma EnoughLeft(b: Buf, n: nat)
    requires b.offset + n <= |b.stream| && 0 < |b.stream|
    ensures Reserve(b, n) == Some(b)
  {
  }

  lemma NumberReadBack(b: Buf, f: Field)
    requires b.offset <= |b.stream| && 0 < |b.stream| && InRange(f) && Comes(b, Encode(f)) && !f.Text? && !f.Data?
    ensures Read(b, KindOf(f)) == (Skip(b, |Encode(f)|), Some(f))
  {
    assert Take(b, |Encode(f)|) == Encode(f);
    match f
    case U8(v) => assert b.stream[b.offset] == Encode(f)[0];
    case U16(v) => BE16RoundTrip(v);
    case U32(v) => BE32RoundTrip(v);
  }

  /** A field that is next in the buffer is read back, when it is within the limits. */
  lemma ReadBack(b: Buf, f: Field)
    requires b.offset <= |b.stream| && 0 < |b.stream| && Readable(f) && InRange(f) && Comes(b, Encode(f))
    ensures Read(b, KindOf(f)) == (Skip(b, |Encode(f)|), Some(f))
  {
    hide Read, Encode, Comes;
    match f
    case Text(chars) => TextReadableIff(b, chars);
    case Data(bytes) => DataReadableIff(b, bytes);
    case _ => NumberReadBack(b, f);
  }

  lemma {:induction false} ReadAllBack(b: Buf, fs: seq<Field>)
    requires b.offset <= |b.stream| && 0 < |b.stream|
    requires (forall f :: f in fs ==> Readable(f) && InRange(f)) && Comes(b, EncodeAll(fs))
    ensures ReadAll(b, Kinds(fs)) == Some(fs)
    decreases |fs|
  {
    hide Read, Encode, Readable, InRange, KindOf;
    if fs == [] {
      assert Kinds(fs) == [];
    } else {
      var f, rest := fs[0], fs[1..];
      assert fs == [f] + rest && f in fs;
      assert Kinds(fs)[0] == KindOf(f) && Kinds(fs)[1..] == Kinds(rest);
      ComesSplit(b, Encode(f), EncodeAll(rest));
      ReadBack(b, f);
      assert Comes(Skip(b, |Encode(f)|), EncodeAll(rest));
      ReadAllBack(Skip(b, |Encode(f)|), rest);
    }
  }

  // ---------------------------------------------------------------- writing

  /** A write keeps what was written before and appends the field. */
  lemma WriteAppends(b: Buf, f: Field)
    requires b.offset <= |b.stream| && 0 < |b.stream| && InRange(f) && Write(b, f).Some?
    ensures var r := Write(b, f).value;
            && r.offset == b.offset + |Encode(f)| && r.stream[..r.offset] == b.stream[..b.offset] + Encode(f)
            && r.dynamic == b.dynamic
  {
    var g := Reserve(b, |Encode(f)|).value;
    var r := Write(b, f).value;
    assert g.stream[..b.offset] == b.stream[..b.offset];
    assert r.stream[..r.offset][..b.offset] == g.stream[..b.offset];
    assert r.stream[..r.offset][b.offset..] == Encode(f);
  }

  lemma {:induction false} WriteAllAppends(b: Buf, fs: seq<Field>)
    requires b.offset <= |b.stream| && 0 < |b.stream| && (forall f :: f in fs ==> InRange(f)) && WriteAll(b, fs).Some?
    ensures var r := WriteAll(b, fs).value;
            && r.offset == b.offset + |EncodeAll(fs)| && r.stream[..r.offset] == b.stream[..b.offset] + EncodeAll(fs)
    decreases |fs|
  {
    hide Write, Encode, InRange;
    if fs != [] {
      WriteAppends(b, fs[0]);
      WriteAllAppends(Write(b, fs[0]).value, fs[1..]);
    }
  }

  // ---------------------------------------------------------------- how far a buffer grows

  /** The largest size a package buffer can double to: 64 MiB, although MAX_BUFFER_SIZE is 100 MiB. */
  const LARGEST: nat := 0x400_0000

  function Doubled(k: nat): (r: nat)
    ensures 0 < r
  {
    if k == 0 then INITIAL_SIZE else 2 * Doubled(k - 1)
  }

  lemma DoubledValues()
    ensures Doubled(18) == LARGEST && Doubled(19) > MAX_BUFFER_SIZE
  {
    assert Doubled(6) == 64 * 256;
    assert Doubled(12) == 64 * Doubled(6);
    assert Doubled(18) == 64 * Doubled(12);
  }

  lemma {:induction false} DoubledMonotone(j: nat, k: nat)
    requires j <= k
    ensures Doubled(j) <= Doubled(k)
    decreases k
  {
    if j < k {
      DoubledMonotone(j, k - 1);
    }
  }

  /** Doubling ends at a doubled size, and within the limit exactly up to LARGEST. */
  lemma {:induction false} GrownSizeIff(k: nat, needed: nat)
    requires k <= 18
    ensures GrownSize(Doubled(k), needed) <= MAX_BUFFER_SIZE <==> needed <= LARGEST
    ensures needed <= LARGEST ==> exists j :: k <= j <= 18 && GrownSize(Doubled(k), needed) == Doubled(j)
    decreases 18 - k
  {
    DoubledValues();
    DoubledMonotone(k, 18);
    if Doubled(k) < needed {
      assert 2 * Doubled(k) == Doubled(k + 1);
      if k < 18 {
        GrownSizeIff(k + 1, needed);
      }
    } else {
      assert GrownSize(Doubled(k), needed) == Doubled(k);
    }
  }

  ghost predicate Growable(b: Buf) {
    b.dynamic && b.offset <= |b.stream| && exists k :: 0 <= k <= 18 && |b.stream| == Doubled(k)
  }

  lemma ReserveFitsIff(b: Buf, n: nat)
    requires Growable(b)
    ensures 0 < |b.stream|
    ensures Reserve(b, n).Some? <==> b.offset + n <= LARGEST
    ensures Reserve(b, n).Some? ==> Growable(Reserve(b, n).value)
  {
    var k :| 0 <= k <= 18 && |b.stream| == Doubled(k);
    DoubledValues();
    DoubledMonotone(k, 18);
    GrownSizeIff(k, b.offset + n);
    hide Doubled, GrownSize;
  }

  lemma WriteFitsIff(b: Buf, f: Field)
    requires Growable(b) && InRange(f)
    ensures 0 < |b.stream|
    ensures Write(b, f).Some? <==> !(f.Data? && |f.bytes| == 0) && b.offset + |Encode(f)| <= LARGEST
    ensures Write(b, f).Some? ==> Growable(Write(b, f).value)
  {
    hide Doubled, Encode, Reserve;
    ReserveFitsIff(b, |Encode(f)|);
  }

  /** A sequence of fields can be written to a new package exactly when it has no empty binary data and
      takes at most 64 MiB. */
  lemma {:induction false} WriteAllFitsIff(b: Buf, fs: seq<Field>)
    requires Growable(b) && (forall f :: f in fs ==> InRange(f)) && b.offset <= LARGEST
    ensures 0 < |b.stream|
    ensures WriteAll(b, fs).Some? <==>
            (forall f :: f in fs ==> !(f.Data? && |f.bytes| == 0)) && b.offset + |EncodeAll(fs)| <= LARGEST
    ensures WriteAll(b, fs).Some? ==> Growable(WriteAll(b, fs).value)
    decreases |fs|
  {
    if fs != [] {
      var f, rest := fs[0], fs[1..];
      assert fs == [f] + rest;
      assert forall x :: x in fs <==> x == f || x in rest;
      WriteFitsIff(b, f);
      hide Growable, Write, Encode, Doubled;
      if Write(b, f).Some? {
        WriteAppends(b, f);
        WriteAllFitsIff(Write(b, f).value, rest);
      }
    }
  }

  // ---------------------------------------------------------------- packages

  lemma GrowableBounds(b: Buf)
    requires Growable(b)
    ensures 0 < |b.stream| <= LARGEST
  {
    var k :| 0 <= k <= 18 && |b.stream| == Doubled(k);
    DoubledValues();
    DoubledMonotone(k, 18);
  }

  lemma NewBufferGrowable()
    ensures Growable(NEW_BUFFER)
  {
    assert Doubled(0) == INITIAL_SIZE;
  }

  /** A package arrives as it was sent, and what follows it in the stream is left alone. */
  lemma PackageRoundTrip(op: Byte, b: Buf, rest: seq<Byte>)
    requires 0 < |b.stream| <= MAX_BUFFER_SIZE
    ensures Receive(Send(op, b) + rest) == Some((op, Buf(b.stream, 0, false), rest))
  {
    var n := |b.stream|;
    var bytes := Send(op, b) + rest;
    BE32RoundTrip(n);
    assert b.stream[..n] == b.stream;
    assert bytes[1..5] == BE32(n);
    assert bytes[5..5 + n] == b.stream;
    assert bytes[5 + n..] == rest;
  }

  /** The wire round trip: fields within the limits, written through any number of doublings and sent padded
      to the buffer's capacity, read back in order as the same values. */
  lemma WireRoundTrip(op: Byte, fs: seq<Field>, rest: seq<Byte>)
    requires (forall f :: f in fs ==> Readable(f) && InRange(f)) && |EncodeAll(fs)| <= LARGEST
    ensures WriteAll(NEW_BUFFER, fs).Some?
    ensures var received := Receive(Send(op, WriteAll(NEW_BUFFER, fs).value) + rest);
            && received.Some? && received.value.0 == op && received.value.2 == rest
            && received.value.1.offset <= |received.value.1.stream| && 0 < |received.value.1.stream|
            && ReadAll(received.value.1, Kinds(fs)) == Some(fs)
  {
    NewBufferGrowable();
    WriteAllFitsIff(NEW_BUFFER, fs);
    var w := WriteAll(NEW_BUFFER, fs).value;
    GrowableBounds(w);
    WriteAllAppends(NEW_BUFFER, fs);
    hide Receive, Send, WriteAll, ReadAll, Growable;
    PackageRoundTrip(op, w, rest);
    assert w.stream[..w.offset] == EncodeAll(fs);
    ReadAllBack(Buf(w.stream, 0, false), fs);
  }
}
