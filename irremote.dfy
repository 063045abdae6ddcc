/// The simulator's infrared receiver: key presses are injected as raw
/// 32-bit codes into a queue, and `decode` hands them out one at a time,
/// oldest first. The mutex around the queue is not modelled (the model is
/// single-threaded).
module IRremote {

  /** `IRRawDataType` is `uint32_t`. */
  type IRRawDataType = x: int | 0 <= x < 0x1_0000_0000

  class IRrecv {
    var inputQueue: seq<IRRawDataType>
    var decodedRawData: IRRawDataType

    /** Every code ever injected, in injection order. */
    ghost var injected: seq<IRRawDataType>
    /** Every code `decode` has handed out, in delivery order. */
    ghost var delivered: seq<IRRawDataType>
    /** How many times `resume` was called; `resume` does nothing else. */
    ghost var resumeCount: nat

    /** Codes are delivered in injection order, each exactly once: what was
        delivered followed by what is still queued is what was injected. */
    ghost predicate Valid()
      reads this
    {
      injected == delivered + inputQueue
    }

    constructor ()
      ensures Valid()
      ensures decodedRawData == 0 && inputQueue == []
      ensures injected == [] && delivered == [] && resumeCount == 0
    {
      inputQueue := [];
      decodedRawData := 0;
      injected, delivered, resumeCount := [], [], 0;
    }

    /** `injectCode`: the code joins the back of the queue. */
    method InjectCode(code: IRRawDataType)
      requires Valid()
      modifies this
      ensures Valid()
      ensures inputQueue == old(inputQueue) + [code]
      ensures decodedRawData == old(decodedRawData)
      ensures injected == old(injected) + [code]
      ensures delivered == old(delivered) && resumeCount == old(resumeCount)
    {
      inputQueue := inputQueue + [code];
      injected := injected + [code];
    }

    /** `decode`: false on an empty queue; otherwise the oldest code becomes
        `decodedRawData` and leaves the queue. */
    method Decode() returns (ok: bool)
      requires Valid()
      modifies this
      ensures Valid()
      ensures ok <==> old(inputQueue) != []
      ensures ok ==> decodedRawData == old(inputQueue)[0]
                     && inputQueue == old(inputQueue)[1..]
                     && delivered == old(delivered) + [old(inputQueue)[0]]
      ensures !ok ==> decodedRawData == old(decodedRawData)
                      && inputQueue == old(inputQueue)
                      && delivered == old(delivered)
      ensures injected == old(injected) && resumeCount == old(resumeCount)
    {
      if inputQueue != [] {
        decodedRawData := inputQueue[0];
        delivered := delivered + [inputQueue[0]];
        inputQueue := inputQueue[1..];
        ok := true;
      } else {
        ok := false;
      }
    }

    /** `resume`: no effect on the queue or the decoded value. */
    method Resume()
      modifies this
      ensures inputQueue == old(inputQueue) && decodedRawData == old(decodedRawData)
      ensures injected == old(injected) && delivered == old(delivered)
      ensures resumeCount == old(resumeCount) + 1
    {
      resumeCount := resumeCount + 1;
    }
  }
}
