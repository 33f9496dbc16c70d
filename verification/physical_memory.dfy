/** The Worker's physical memory: one buffer, cut into frames of one page. */
module PhysicalMemoryModule {
  import opened Common

  lemma FrameBounds(f: nat, n: nat, size: nat)
    requires f < n
    ensures 0 <= f * size <= f * size + size <= n * size
  {
    assert (f + 1) * size <= n * size;
  }

  lemma FramesApart(f: nat, g: nat, size: nat)
    requires f < g
    ensures f * size + size <= g * size
  {
    FrameBounds(f, g, size);
  }

  class PhysicalMemory {
    const pageSize: nat
    const frameCount: nat
    const data: array<Byte>
    ghost var frames: seq<seq<Byte>> // the content of each frame

    ghost predicate Sized() {
      0 < pageSize && frameCount * pageSize <= data.Length
    }

    ghost function Frame(f: nat): (r: seq<Byte>)
      requires Sized() && f < frameCount
      reads data
      ensures |r| == pageSize
    {
      FrameBounds(f, frameCount, pageSize);
      data[f * pageSize..f * pageSize + pageSize]
    }

    ghost predicate Valid()
      reads this, data
    {
      && Sized()
      && |frames| == frameCount
      && forall f :: 0 <= f < frameCount ==> frames[f] == Frame(f)
    }

    /** memory_size / page_size frames; a tail shorter than one page stays unused. */
    constructor (memorySize: nat, size: nat)
      requires 0 < memorySize && 0 < size
      ensures Valid() && fresh(data)
      ensures pageSize == size && frameCount == memorySize / size
    {
      pageSize := size;
      frameCount := memorySize / size;
      data := new Byte[memorySize](_ => 0);
      new;
      frames := seq(frameCount, f requires 0 <= f < frameCount reads data => Frame(f));
    }

    /** memcpy into part of a frame. */
    method WriteBytes(f: nat, offset: nat, src: array<Byte>, from: nat, n: nat)
      requires Valid() && f < frameCount && offset + n <= pageSize
      requires src != data && from + n <= src.Length
      modifies this, data
      ensures Valid()
      ensures frames == old(frames)[f := Patch(old(frames)[f], offset, src[from..from + n])]
    {
      FrameBounds(f, frameCount, pageSize);
      var start := f * pageSize;
      forall k | 0 <= k < n {
        data[start + offset + k] := src[from + k];
      }
      frames := frames[f := Frame(f)];
      OtherFramesKept(f, old(data[..]));
      assert Frame(f) == Patch(old(Frame(f)), offset, src[from..from + n]);
    }

    /** memcpy out of part of a frame. */
    method ReadBytes(f: nat, offset: nat, dst: array<Byte>, at: nat, n: nat)
      requires Valid() && f < frameCount && offset + n <= pageSize
      requires dst != data && at + n <= dst.Length
      modifies dst
      ensures dst[..] == Patch(old(dst[..]), at, frames[f][offset..offset + n])
    {
      FrameBounds(f, frameCount, pageSize);
      var start := f * pageSize;
      forall k | 0 <= k < n {
        dst[at + k] := data[start + offset + k];
      }
      ghost var bytes := frames[f][offset..offset + n];
      forall k | 0 <= k < n
        ensures dst[at + k] == bytes[k]
      {
        assert bytes[k] == frames[f][offset + k] == Frame(f)[offset + k];
      }
    }

    /** The block is copied and, when it is shorter than a page, the rest of the frame is zeroed. */
    method FillFrame(f: nat, block: seq<Byte>)
      requires Valid() && f < frameCount
      modifies this, data
      ensures Valid()
      ensures frames == old(frames)[f := Fit(block, pageSize)]
    {
      FrameBounds(f, frameCount, pageSize);
      var start := f * pageSize;
      var copySize := if |block| < pageSize then |block| else pageSize;
      forall k | 0 <= k < copySize {
        data[start + k] := block[k];
      }
      forall k | copySize <= k < pageSize {
        data[start + k] := 0;
      }
      frames := frames[f := Frame(f)];
      OtherFramesKept(f, old(data[..]));
      assert Frame(f) == Fit(block, pageSize);
    }

    method FrameBytes(f: nat) returns (r: seq<Byte>)
      requires Valid() && f < frameCount
      ensures r == frames[f]
    {
      FrameBounds(f, frameCount, pageSize);
      r := data[f * pageSize..f * pageSize + pageSize];
    }

    lemma OtherFramesKept(f: nat, was: seq<Byte>)
      requires Sized() && f < frameCount && |was| == data.Length
      requires forall i :: 0 <= i < f * pageSize || f * pageSize + pageSize <= i < data.Length ==> data[i] == was[i]
      ensures forall g :: 0 <= g < frameCount && g != f ==>
                            0 <= g * pageSize <= g * pageSize + pageSize <= |was| &&
                            Frame(g) == was[g * pageSize..g * pageSize + pageSize]
    {
      forall g | 0 <= g < frameCount && g != f
        ensures 0 <= g * pageSize <= g * pageSize + pageSize <= |was|
        ensures Frame(g) == was[g * pageSize..g * pageSize + pageSize]
      {
        FrameBounds(g, frameCount, pageSize);
        if g < f {
          FramesApart(g, f, pageSize);
        } else {
          FramesApart(f, g, pageSize);
        }
      }
    }
  }
}
