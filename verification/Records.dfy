/** Stored records and logged operations (crates/turbomemory_storage/src/record.rs, wal.rs). */
module Records {
  import opened Wrappers

  type Offset = nat

  /** The metadata of one record; its vector lives in the vector file. */
  datatype Meta = Meta(id: string, insertSeq: nat, text: string, scope: Option<string>, role: Option<string>)

  /** A logged operation. A checksum is absent only in version-1 logs. */
  datatype WalOp =
    | Insert(offset: Offset, number: nat, meta: Meta, crc: Option<nat>)
    | Delete(offset: Offset)
    | Flush(offset: Offset)
    | Replace(from: Offset, offset: Offset, number: nat, meta: Meta, newCrc: nat)
}
