/** Outcomes shared by the byte stream and both tag codecs.

    Swift distinguishes thrown errors (a stream read error, a corrupted tag id)
    from traps (a failed `assert`, `precondition` or forced unwrap, a call to
    `fatalError`, an integer conversion that overflows).  The model keeps the
    distinction: thrown errors are `ReadError` and `DataCorrupted`, every trap
    is a `Trap` carrying the reason.
 */
module Results {

  /** Why the Swift program would stop instead of throwing. */
  datatype TrapReason =
    | DepthExhausted      // `decrementMaxDepth` asserts `maxDepth > 0`
    | MissingOverride     // a `Tag` method `EndTag` does not override (`tagID`, `deserializeValue`): `fatalError`
    | Overflow            // `UInt8(data.count)` or `UInt32(value.count)` out of range
    | NotCompound         // `element as! CompoundTag` on a non-compound list element
    | BadMagic            // `precondition(filetag == 0x42)`
    | BadVersion          // `precondition(version == 1)`
    | UnknownId           // `TagID(rawValue: id)!` on an unassigned id

  datatype Error =
    | ReadError             // `BoxDataStreamError.readError`
    | DataCorrupted(id: int) // `DecodingError.dataCorrupted` for an unknown tag id
    | Trap(reason: TrapReason)

  /** A failure-compatible result, so that codec steps chain with `:-`. */
  datatype Result<+T> = Ok(value: T) | Err(error: Error) {

    predicate IsFailure() {
      Err?
    }

    function PropagateFailure<U>(): Result<U>
      requires Err?
    {
      Err(error)
    }

    function Extract(): T
      requires Ok?
    {
      value
    }
  }
}
