/** Failure and run types shared by every part of the model. */
module Results {

  /** The exceptions the record code can raise, plus a failed genome lookup. */
  datatype Error =
    | IndexOutOfRange   // Python IndexError: a list or string indexed past its end
    | NotAnInteger      // Python ValueError raised by int()
    | LookupFailure     // the genome cannot resolve the requested interval

  datatype Result<T> = Ok(value: T) | Err(error: Error)

  /** One (operation, length) pair: a CIGAR run, an MD run or a merged run. */
  datatype Run = Run(op: string, len: nat)

  /** Adds one item in front of a successful result; a failure stays a failure. */
  function Prepend<T>(r: T, res: Result<seq<T>>): Result<seq<T>>
  {
    match res
    case Ok(rest) => Ok([r] + rest)
    case Err(e) => Err(e)
  }

  /** Adds several items in front of a successful result. */
  function PrependAll<T>(done: seq<T>, res: Result<seq<T>>): Result<seq<T>>
  {
    match res
    case Ok(rest) => Ok(done + rest)
    case Err(e) => Err(e)
  }

  lemma PrependNothing<T>(res: Result<seq<T>>)
    ensures PrependAll([], res) == res
  {
    if res.Ok? {
      assert [] + res.value == res.value;
    }
  }

  lemma PrependAllStep<T>(done: seq<T>, r: T, res: Result<seq<T>>)
    ensures PrependAll(done, Prepend(r, res)) == PrependAll(done + [r], res)
  {
    if res.Ok? {
      assert done + ([r] + res.value) == (done + [r]) + res.value;
    }
  }

  /** Pairs up a list of operations and a list of counts from position `i` on. */
  function ZipFrom(ops: seq<string>, counts: seq<nat>, i: nat): (z: seq<Run>)
    requires i <= |ops| <= |counts|
    ensures |z| == |ops| - i
    ensures forall k :: 0 <= k < |z| ==> z[k] == Run(ops[i + k], counts[i + k])
  {
    seq(|ops| - i, k requires 0 <= k < |ops| - i => Run(ops[i + k], counts[i + k]))
  }
}
