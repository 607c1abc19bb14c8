/** The nesting budget both tag codecs thread through every call.

    `decrementMaxDepth` asserts that the budget is positive and hands the
    callee one less.  The model keeps the assertion, as a debug build does:
    a budget of zero or below stops the run.
 */
module MaxDepth {
  import opened Results

  /** `Tag.defaultMaxDepth`. */
  const DefaultMaxDepth: int := 512

  /** `decrementMaxDepth(maxDepth)`. */
  function Decrement(depth: int): (r: Result<int>)
    ensures r.Ok? <==> depth > 0
    ensures r.Ok? ==> r.value == depth - 1 && r.value >= 0
    ensures r.Err? ==> r.error == Trap(DepthExhausted)
  {
    if depth > 0 then Ok(depth - 1) else Err(Trap(DepthExhausted))
  }
}
