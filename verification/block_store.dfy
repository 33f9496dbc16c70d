/** Storage as a Worker sees it over its socket: a request either does its work or fails. */
module BlockStoreModule {
  import opened Common

  datatype ReadResult = ReadOk(data: seq<Byte>) | ReadMissing | ReadFailed

  class BlockStore {
    var blocks: map<BlockId, seq<Byte>>

    // Specification only: how many requests have failed so far.
    ghost var failures: nat

    constructor ()
      ensures blocks == map[] && failures == 0
    {
      blocks, failures := map[], 0;
    }

    /** read_block_from_storage: any request may be lost or refused. */
    method ReadBlock(id: BlockId) returns (r: ReadResult)
      modifies `failures
      ensures failures == old(failures) + if r.ReadFailed? then 1 else 0
      ensures r.ReadOk? ==> id in blocks && r.data == blocks[id]
      ensures r.ReadMissing? ==> id !in blocks
    {
      var lost: bool := *;
      if lost {
        failures := failures + 1;
        r := ReadFailed;
      } else if id in blocks {
        r := ReadOk(blocks[id]);
      } else {
        r := ReadMissing;
      }
    }

    /** write_block_to_storage: a failed request may still have been served, when only its answer was lost. */
    method WriteBlock(id: BlockId, data: seq<Byte>) returns (ok: bool)
      modifies this
      ensures failures == old(failures) + if ok then 0 else 1
      ensures ok ==> blocks == old(blocks)[id := data]
      ensures !ok ==> blocks == old(blocks) || blocks == old(blocks)[id := data]
    {
      var refused: bool := *;
      if refused {
        failures := failures + 1;
        return false;
      }
      blocks := blocks[id := data];
      var answerLost: bool := *;
      if answerLost {
        failures := failures + 1;
      }
      ok := !answerLost;
    }
  }
}
