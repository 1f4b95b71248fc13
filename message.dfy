/**
 * The message model shared by the writers: byte payloads, and the batch error
 * (a base error plus a sparse map from record index to that record's error).
 */
module Message {

  newtype byte = x: int | 0 <= x < 256

  /** The raw bytes of one message part. */
  type Payload = seq<byte>

  /**
   * A failed write: `base` is the error reported for the batch as a whole and
   * `failed` names the records (by their index in the batch) that failed.
   */
  datatype BatchError = BatchError(base: string, failed: map<nat, string>) {

    /** Every index the error names is an index of a batch of `n` records. */
    predicate ValidFor(n: nat)
    {
      forall i :: i in failed ==> i < n
    }
  }
}
