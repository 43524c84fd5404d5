/** Small shared vocabulary: optional values, results with the error kinds
    the orchestration layer can raise, and Python's list indexing. */
module Common {

  datatype Option<T> = None | Some(value: T)

  /** The failures that model.py raises (as assertions or torch errors). */
  datatype Error =
    | InsufficientSpace(moduleIdx: nat)   // planner ran past the last device
    | ShapeMismatch                       // input mask shape differs from the token ids
    | BroadcastMismatch                   // input mask cannot broadcast against the causal mask
    | SliceOutOfRange                     // narrow() past the end of the scratch arena
    | IndexOutOfRange                     // Python IndexError on a list subscript

  datatype Result<T> = Ok(value: T) | Err(error: Error)

  /** Where a tensor lives: `_torch_device` turns a device index into
      "cpu" for -1 and "cuda:<idx>" for anything else. */
  datatype Device = Cpu | Cuda(idx: int)

  function TorchDevice(idx: int): (d: Device)
    ensures d == Cpu <==> idx == -1
    ensures d.Cuda? ==> d.idx == idx
  {
    if idx == -1 then Cpu else Cuda(idx)
  }

  /** Two device indices name the same torch device exactly when they are equal. */
  lemma TorchDeviceInjective(a: int, b: int)
    ensures TorchDevice(a) == TorchDevice(b) <==> a == b
  {
  }

  function Max(a: int, b: int): int { if a < b then b else a }

  function Min(a: int, b: int): int { if a < b then a else b }

  /** Python's `xs[i]` on a list of length `len`: negative subscripts count
      from the end, anything outside [-len, len) raises IndexError. */
  function PyIndex(i: int, len: nat): (r: Option<nat>)
    ensures r.Some? <==> -(len as int) <= i < len
    ensures r.Some? ==> r.value < len
    ensures r.Some? && 0 <= i ==> r.value == i
    ensures r.Some? && i < 0 ==> r.value == len + i
  {
    if 0 <= i < len then Some(i)
    else if -(len as int) <= i < 0 then Some(len + i)
    else None
  }
}
