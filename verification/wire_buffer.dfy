/** The growing buffer as it runs: a stream that is reallocated, and an offset. */
module WireBuffer {
  import opened Common
  import opened WireModel

  class Buffer {
    var stream: array<Byte>
    var offset: nat
    const isDynamic: bool

    ghost predicate Valid()
      reads this
    {
      offset <= stream.Length && 0 < stream.Length
    }

    ghost function State(): Buf
      reads this, stream
    {
      Buf(stream[..], offset, isDynamic)
    }

    /** buffer_create_dynamic. */
    constructor ()
      ensures Valid() && fresh(stream) && State() == NEW_BUFFER
    {
      stream := new Byte[INITIAL_SIZE](_ => 0);
      offset := 0;
      isDynamic := true;
      new;
      assert stream[..] == Zeros(INITIAL_SIZE);
    }

    /** buffer_create on received bytes. */
    constructor Fixed(bytes: seq<Byte>)
      requires |bytes| > 0
      ensures Valid() && fresh(stream) && State() == Buf(bytes, 0, false)
    {
      stream := new Byte[|bytes|](i requires 0 <= i < |bytes| => bytes[i]);
      offset := 0;
      isDynamic := false;
      new;
      assert stream[..] == bytes;
    }

    /** buffer_expand: the doubling loop and the reallocation. */
    method Expand(required: nat) returns (ok: bool)
      requires Valid() && isDynamic && required > stream.Length - offset
      modifies this`stream
      ensures Valid() && (stream == old(stream) || fresh(stream))
      ensures Reserve(old(State()), required) == if ok then Some(State()) else None
      ensures !ok ==> State() == old(State())
    {
      var size := stream.Length;
      while size < offset + required
        invariant 0 < size
        invariant GrownSize(size, offset + required) == GrownSize(stream.Length, offset + required)
        decreases offset + required - size
      {
        size := size * 2;
      }
      if size > MAX_BUFFER_SIZE { return false; }
      var was := stream;
      var larger := new Byte[size](i requires 0 <= i < size reads was => if i < was.Length then was[i] else 0);
      assert larger[..] == was[..] + Zeros(size - was.Length);
      stream := larger;
      return true;
    }

    method HasCapacity(required: nat) returns (ok: bool)
      requires Valid()
      modifies this`stream
      ensures Valid() && (stream == old(stream) || fresh(stream))
      ensures Reserve(old(State()), required) == if ok then Some(State()) else None
      ensures !ok ==> State() == old(State())
    {
      if isDynamic && stream.Length - offset < required {
        ok := Expand(required);
      } else {
        ok := stream.Length - offset >= required;
      }
    }

    /** memcpy to the next position. */
    method Copy(bytes: seq<Byte>)
      requires Valid() && offset + |bytes| <= stream.Length
      modifies this`offset, stream
      ensures Valid() && State() == Put(old(State()), bytes)
    {
      ghost var was := stream[..];
      for i := 0 to |bytes|
        invariant offset == old(offset)
        invariant stream[..] == was[..offset] + bytes[..i] + was[offset + i..]
      {
        stream[offset + i] := bytes[i];
        assert stream[..] == was[..offset] + bytes[..i + 1] + was[offset + i + 1..];
      }
      assert bytes[..|bytes|] == bytes;
      assert stream[..] == Patch(was, offset, bytes);
      offset := offset + |bytes|;
    }

    // ---------------------------------------------------------------- writing

    /** What a write function leaves: the written buffer, or the old one. */
    ghost predicate Wrote(was: Buf, f: Field, ok: bool)
      requires was.offset <= |was.stream| && 0 < |was.stream| && InRange(f)
      reads this, stream
    {
      Write(was, f) == (if ok then Some(State()) else None) && (!ok ==> State() == was)
    }

    /** The writers of numbers; values are already in network byte order. */
    method WriteNumber(f: Field) returns (ok: bool)
      requires Valid() && InRange(f) && !f.Text? && !f.Data?
      modifies this`stream, this`offset, stream
      ensures Valid() && (stream == old(stream) || fresh(stream))
      ensures Wrote(old(State()), f, ok)
    {
      var bytes := Encode(f);
      ok := HasCapacity(|bytes|);
      if ok { Copy(bytes); }
    }

    method WriteText(chars: seq<Byte>) returns (ok: bool)
      requires Valid()
      modifies this`stream, this`offset, stream
      ensures Valid() && (stream == old(stream) || fresh(stream))
      ensures Wrote(old(State()), Text(chars), ok)
    {
      var n := StoredLength(chars);
      ok := HasCapacity(4 + n);
      if ok {
        ghost var grown := State();
        PutTwice(grown, BE32(n), chars[..n]);
        Copy(BE32(n));
        Copy(chars[..n]);
      }
    }

    method WriteData(bytes: seq<Byte>) returns (ok: bool)
      requires Valid()
      modifies this`stream, this`offset, stream
      ensures Valid() && (stream == old(stream) || fresh(stream))
      ensures Wrote(old(State()), Data(bytes), ok)
    {
      if |bytes| == 0 { return false; }
      ok := HasCapacity(4 + |bytes|);
      if ok {
        ghost var grown := State();
        PutTwice(grown, BE32(|bytes| % TWO32), bytes);
        Copy(BE32(|bytes| % TWO32));
        Copy(bytes);
      }
    }

    // ---------------------------------------------------------------- reading

    method ReadNumber(k: Kind) returns (f: Option<Field>)
      requires Valid() && k != KText && k != KData
      modifies this`offset
      ensures Valid() && (State(), f) == Read(old(State()), k)
    {
      var n := if k == KU8 then 1 else if k == KU16 then 2 else 4;
      if stream.Length - offset < n { return None; }
      var bytes := stream[offset..offset + n];
      f := Some(if k == KU8 then U8(bytes[0]) else if k == KU16 then U16(FromBE16(bytes)) else U32(FromBE32(bytes)));
      offset := offset + n;
    }

    method ReadText() returns (f: Option<Field>)
      requires Valid()
      modifies this`offset
      ensures Valid() && (State(), f) == Read(old(State()), KText)
    {
      var length := ReadNumber(KU32);
      if length.None? { return None; }
      var n := length.value.w;
      if n > MAX_STRING_LENGTH || stream.Length - offset < n {
        offset := offset - 4;
        return None;
      }
      f := Some(Text(stream[offset..offset + n]));
      offset := offset + n;
    }

    method ReadData() returns (f: Option<Field>)
      requires Valid()
      modifies this`stream, this`offset
      ensures Valid() && (State(), f) == Read(old(State()), KData)
    {
      var length := ReadNumber(KU32);
      if length.None? { return None; }
      var n := length.value.w;
      if n > MAX_DATA_SIZE {
        offset := offset - 4;
        return None;
      }
      var ok := HasCapacity(n);
      if !ok {
        offset := offset - 4;
        return None;
      }
      f := Some(Data(stream[offset..offset + n]));
      offset := offset + n;
    }
  }

  lemma PutTwice(b: Buf, x: seq<Byte>, y: seq<Byte>)
    requires b.offset + |x| + |y| <= |b.stream|
    ensures Put(Put(b, x), y) == Put(b, x + y)
  {
    assert Put(Put(b, x), y).stream == Put(b, x + y).stream;
  }
}
