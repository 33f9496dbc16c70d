/** Vocabulary shared by the Worker, the Storage and the wire format. */
module Common {

  newtype Byte = x: int | 0 <= x < 256

  /** The pair `file:tag` that names one version of a file. */
  datatype FileTag = FileTag(file: string, tag: string)

  /** One logical block of a File:Tag; a Worker page has the number of the block it caches. */
  datatype BlockId = BlockId(ft: FileTag, block: nat)

  datatype Option<+T> = None | Some(value: T)

  function Zeros(n: nat): (z: seq<Byte>)
    ensures |z| == n
  {
    seq(n, _ => 0)
  }

  /** `data` cut to `n` bytes, or padded with zeros up to `n` bytes. */
  function Fit(data: seq<Byte>, n: nat): (r: seq<Byte>)
    ensures |r| == n
    ensures forall i :: 0 <= i < n ==> r[i] == if i < |data| then data[i] else 0
  {
    if |data| < n then data + Zeros(n - |data|) else data[..n]
  }

  /** `base` with `data` written over it from position `at`. */
  function Patch(base: seq<Byte>, at: nat, data: seq<Byte>): (r: seq<Byte>)
    requires at + |data| <= |base|
    ensures |r| == |base|
    ensures forall i :: 0 <= i < |base| ==> r[i] == if at <= i < at + |data| then data[i - at] else base[i]
  {
    base[..at] + data + base[at + |data|..]
  }
}
