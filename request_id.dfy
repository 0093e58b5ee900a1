/** Per-request sequence numbers and the UUIDs derived from them
    (`src/state/request_id.rs`). The random 128-bit seed is a constructor
    parameter; the counter is a single-threaded field. Both are bit-vectors,
    as in the original, so that addition wraps and `^` is exclusive or. */
module RequestId {

  class RequestIdGenerator {
    const seed: bv128
    var counter: bv64

    /** The first sequence number handed out is 1. */
    constructor (seed: bv128)
      ensures this.seed == seed && counter == 1
    {
      this.seed := seed;
      counter := 1;
    }

    /** `fetch_add(1)`: the current counter, which then moves on by one
        (wrapping at 2^64); until it wraps, the next call returns a larger
        number. */
    method NextSeq() returns (s: bv64)
      modifies this
      ensures s == old(counter)
      ensures counter == old(counter) + 1
      ensures old(counter) != 0xffff_ffff_ffff_ffff ==> s < counter
    {
      s := counter;
      counter := counter + 1;
    }

    /** The UUID of a request: its sequence number mixed into the seed;
        sequence number 0 would give the seed itself. */
    function RequestUuid(requestSeq: bv64): (id: bv128)
      ensures requestSeq == 0 ==> id == seed
      ensures id ^ seed == requestSeq as bv128
    {
      seed ^ (requestSeq as bv128)
    }
  }

  /** Distinct sequence numbers give distinct request ids. */
  lemma UuidsDistinct(g: RequestIdGenerator, s1: bv64, s2: bv64)
    ensures g.RequestUuid(s1) == g.RequestUuid(s2) <==> s1 == s2
  {
  }
}
