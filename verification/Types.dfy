/** The values that travel between the components (types/types.go). */
module Types {
  import opened Encoding

  /** One indexed event: the payload of IndexedDataGob. */
  datatype Record = Record(l1InfoRoot: Bytes, blockTime: nat, blockParentHash: Bytes)

  /** A record together with the key it is stored under. */
  datatype Register = Register(key: nat, data: Record)

  /** A fetched range of blocks: a block missing from `data` has no records. */
  datatype SyncItem = SyncItem(startBlock: nat, endBlock: nat, data: map<nat, seq<Record>>)
  {
    predicate Covers(b: nat) {
      startBlock <= b <= endBlock
    }

    function At(b: nat): seq<Record> {
      if b in data then data[b] else []
    }
  }

  datatype Mode = ModeRange | ModeFull

  /**
   Block heights of a run stay below 2^62, so that the sum in the split at
   fetcher/fetcher.go:186 is exact in Go's 64-bit int.
   */
  const MAX_HEIGHT: nat := 0x4000_0000_0000_0000
}
