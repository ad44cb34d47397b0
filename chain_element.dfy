/** The progress tracker handed to read and write callbacks: total size,
    bytes processed so far and the completed fraction. `completed` is an exact
    ratio here, where PHP computes a float. */
module Containers {

  /** The array form of a tracker: exactly the keys size, bytesProceed and completed. */
  datatype Snapshot = Snapshot(size: int, bytesProceed: int, completed: real)

  /** The snapshot a tracker started with `size` shows after being updated to
      `bytes`: the fraction is bytes/size, and stays at its start value 0 when
      size is 0. */
  function Progress(size: int, bytes: int): Snapshot
  {
    Snapshot(size, bytes, if size > 0 then bytes as real / size as real else 0.0)
  }

  lemma ProgressEnds(size: int)
    ensures Progress(size, 0).completed == 0.0
    ensures size > 0 ==> Progress(size, size).completed == 1.0
  {
  }

  class ChainElement {
    var size: int
    var bytesProceed: int
    var completed: real

    /** The tracker agrees with `Progress` on its two integer fields. */
    ghost predicate Tracks()
      reads this
    {
      ToArray() == Progress(size, bytesProceed)
    }

    /** `ChainElement::start`. */
    constructor Start(size: int)
      ensures this.size == size && bytesProceed == 0 && completed == 0.0
      ensures Tracks()
    {
      this.size := size;
      bytesProceed := 0;
      completed := 0.0;
    }

    /** Sets the processed byte count and recomputes the fraction when the size
        is positive; the size never changes. Returns the tracker itself. */
    method Update(bytes: int) returns (self: ChainElement)
      modifies this
      ensures self == this
      ensures size == old(size) && bytesProceed == bytes
      ensures completed == if size > 0 then bytes as real / size as real else old(completed)
      ensures old(Tracks()) ==> Tracks()
    {
      bytesProceed := bytes;
      if size > 0 {
        completed := bytesProceed as real / size as real;
      }
      self := this;
    }

    function ToArray(): (s: Snapshot)
      reads this
      ensures s.size == size && s.bytesProceed == bytesProceed && s.completed == completed
    {
      Snapshot(size, bytesProceed, completed)
    }
  }
}
