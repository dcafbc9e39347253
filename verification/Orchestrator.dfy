/**
 The orchestrator (orchestrator/orchestrator.go): the choice of the mode, the
 start of a process, and what one tick does.
 */
module Orchestrator {
  import opened Wrappers
  import opened Types
  import opened Persistor

  datatype StartError = InvalidTag | DbFailed | TagFailed

  /** The requests that a process starts with. */
  datatype Started = Started(mode: Mode, start: int, end: int)

  class Orchestrator {
    const persistor: Persistor
    var currEndblock: int
    /** Start blocks handed to the synchronizer. */
    var synchronized: seq<int>
    /** Ranges handed to the fetcher. */
    var requested: seq<(int, int)>

    constructor (p: Persistor)
      ensures persistor == p && synchronized == [] && requested == []
    {
      persistor, currEndblock, synchronized, requested := p, 0, [], [];
    }

    method ManageRange(startBlock: int, endBlock: int, commits: bool) returns (r: Result<Started, StartError>)
      modifies this, persistor
      ensures persistor.Contents()
           == if commits then old(persistor.Contents()).Start(ModeRange) else old(persistor.Contents())
      ensures if commits then
                && r == Ok(Started(ModeRange, startBlock, endBlock))
                && synchronized == old(synchronized) + [startBlock]
                && requested == old(requested) + [(startBlock, endBlock)]
              else
                r == Err(DbFailed) && synchronized == old(synchronized) && requested == old(requested)
    {
      var ok := persistor.StartDB(ModeRange, commits);
      if !ok {
        return Err(DbFailed);
      }
      synchronized := synchronized + [startBlock];
      requested := requested + [(startBlock, endBlock)];
      return Ok(Started(ModeRange, startBlock, endBlock));
    }

    /** A failed tag request leaves the database started and nothing requested. */
    method ManageFull(tag: Option<nat>, commits: bool) returns (r: Result<Started, StartError>)
      modifies this, persistor
      ensures persistor.Contents()
           == if commits then old(persistor.Contents()).Start(ModeFull) else old(persistor.Contents())
      ensures if commits && tag.Some? then
                var start := old(persistor.Contents()).Start(ModeFull).LastBlock() + 1;
                && r == Ok(Started(ModeFull, start, tag.value))
                && synchronized == old(synchronized) + [start]
                && requested == old(requested) + [(start, tag.value)]
                && currEndblock == tag.value
              else
                && r == Err(if commits then TagFailed else DbFailed)
                && synchronized == old(synchronized) && requested == old(requested)
    {
      var ok := persistor.StartDB(ModeFull, commits);
      if !ok {
        return Err(DbFailed);
      }
      if tag.None? {
        return Err(TagFailed);
      }
      var lastIndex: int := persistor.GetLastBlockIndex();
      synchronized := synchronized + [lastIndex + 1];
      requested := requested + [(lastIndex + 1, tag.value)];
      currEndblock := tag.value;
      return Ok(Started(ModeFull, lastIndex + 1, tag.value));
    }

    /** Range mode needs both ends; a zero end means "not set". Nothing is touched for an invalid tag. */
    method Start(startEnv: int, endEnv: int, validTag: bool, tag: Option<nat>, commits: bool)
      returns (r: Result<Started, StartError>)
      modifies this, persistor
      ensures r == Err(InvalidTag) <==> (startEnv == 0 || endEnv == 0) && !validTag
      ensures r == Err(InvalidTag) ==>
                && persistor.Contents() == old(persistor.Contents())
                && requested == old(requested) && synchronized == old(synchronized)
      ensures r.Ok? ==>
                && commits && persistor.Contents() == old(persistor.Contents()).Start(r.value.mode)
                && requested == old(requested) + [(r.value.start, r.value.end)]
                && synchronized == old(synchronized) + [r.value.start]
                && (r.value.mode.ModeRange? <==> startEnv != 0 && endEnv != 0)
                && (r.value.mode.ModeRange? ==> r.value.start == startEnv && r.value.end == endEnv)
                && (r.value.mode.ModeFull? ==>
                      && tag == Some(r.value.end) && currEndblock == r.value.end
                      && r.value.start == persistor.Contents().LastBlock() + 1)
      ensures r.Err? ==> requested == old(requested) && synchronized == old(synchronized)
    {
      if startEnv != 0 && endEnv != 0 {
        r := ManageRange(startEnv, endEnv, commits);
        return;
      }
      if !validTag {
        return Err(InvalidTag);
      }
      r := ManageFull(tag, commits);
    }

    /**
     One tick: `currBlock` is what GetCurrBlock returns, `reply` what the tag request
     would. A failed tag request reads as block 0.
     */
    method Tick(currBlock: nat, reply: Option<nat>)
      modifies this
      ensures synchronized == old(synchronized)
      ensures var end := if reply.Some? then reply.value else 0;
              if old(currEndblock) < currBlock <= end then
                currEndblock == end && requested == old(requested) + [(currBlock, end)]
              else
                currEndblock == old(currEndblock) && requested == old(requested)
    {
      if currBlock > currEndblock {
        var endBlock := if reply.Some? then reply.value else 0;
        if currBlock > endBlock {
          return;
        }
        currEndblock := endBlock;
        requested := requested + [(currBlock, endBlock)];
      }
    }
  }
}
