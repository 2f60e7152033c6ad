/**
 * The `ResponseTime` middleware of `src/lib.rs`: a before-hook that stamps the
 * request with the clock reading, and an after-hook that reads the stamp back,
 * computes the elapsed nanoseconds and passes the response through untouched.
 * The clock (`precise_time_ns`) is a parameter of each hook.
 */
module ResponseTime {

  /** Rust's `u64`, the type of `precise_time_ns` and of the stored stamp. */
  const U64_LIMIT: int := 0x1_0000_0000_0000_0000
  type U64 = x: int | 0 <= x < U64_LIMIT

  /** Keys of the request's type map: the middleware's own key, and any other. */
  datatype Key = ResponseTimeKey | OtherKey(name: string)

  /** The part of an Iron request the middleware touches: its extensions. */
  class Request {
    var extensions: map<Key, U64>

    constructor (extensions: map<Key, U64>)
      ensures this.extensions == extensions
    {
      this.extensions := extensions;
    }
  }

  /**
   * The extensions after inserting a stamp: exactly one entry, under the
   * middleware's key, holds the reading (replacing any earlier one); every
   * other entry is as it was.
   */
  function Stamp(ext: map<Key, U64>, now: U64): (r: map<Key, U64>)
    ensures ResponseTimeKey in r && r[ResponseTimeKey] == now
    ensures r.Keys == ext.Keys + {ResponseTimeKey}
    ensures forall k :: k in ext && k != ResponseTimeKey ==> r[k] == ext[k]
  {
    ext[ResponseTimeKey := now]
  }

  /** Stamping twice leaves only the later stamp. */
  lemma StampTwice(ext: map<Key, U64>, first: U64, second: U64)
    ensures Stamp(Stamp(ext, first), second) == Stamp(ext, second)
  {
  }

  /** Whether the after-hook can run on these extensions at clock reading `now`. */
  predicate Finishable(ext: map<Key, U64>, now: U64)
  {
    ResponseTimeKey in ext && ext[ResponseTimeKey] <= now
  }

  /** After a stamp at `start`, any reading no earlier than `start` can finish. */
  lemma StampMakesFinishable(ext: map<Key, U64>, start: U64, now: U64)
    ensures Finishable(Stamp(ext, start), now) <==> start <= now
  {
  }

  /** `BeforeMiddleware::before`: insert the reading under the middleware's key. */
  method Before(req: Request, now: U64)
    modifies req
    ensures req.extensions == Stamp(old(req.extensions), now)
  {
    req.extensions := req.extensions[ResponseTimeKey := now];
  }

  /**
   * `AfterMiddleware::after`. The source unwraps the stamp and subtracts it
   * from the reading as `u64`; the two panics (no stamp, reading earlier than
   * the stamp) are its preconditions. It returns the elapsed time it logs and
   * the response it was given; it changes nothing.
   */
  method After<Response>(req: Request, res: Response, now: U64) returns (delta: U64, out: Response)
    requires Finishable(req.extensions, now)
    ensures delta + req.extensions[ResponseTimeKey] == now
    ensures delta <= now
    ensures out == res
  {
    delta := now - req.extensions[ResponseTimeKey];
    out := res;
  }

  /**
   * One request through the chain: the before-hook at `start`, the handler's
   * response `res`, the after-hook at `finish`. A monotonic clock gives
   * `start <= finish`; the logged time is then `finish - start` and the
   * response comes back unchanged.
   */
  method Chained<Response>(req: Request, res: Response, start: U64, finish: U64)
      returns (delta: U64, out: Response)
    requires start <= finish
    modifies req
    ensures delta == finish - start
    ensures out == res
    ensures req.extensions == Stamp(old(req.extensions), start)
  {
    Before(req, start);
    delta, out := After(req, res, finish);
  }

  /**
   * Two requests in flight at once, hooks interleaved: each after-hook reads
   * its own request's stamp, never the other's.
   */
  method Interleaved<Response>(a: Request, b: Request, resA: Response, resB: Response,
                               startA: U64, startB: U64, finishB: U64, finishA: U64)
      returns (deltaA: U64, deltaB: U64, outA: Response, outB: Response)
    requires a != b
    requires startA <= finishA && startB <= finishB
    modifies a, b
    ensures deltaA == finishA - startA && deltaB == finishB - startB
    ensures outA == resA && outB == resB
    ensures a.extensions == Stamp(old(a.extensions), startA)
    ensures b.extensions == Stamp(old(b.extensions), startB)
  {
    Before(a, startA);
    Before(b, startB);
    deltaB, outB := After(b, resB, finishB);
    deltaA, outA := After(a, resA, finishA);
  }
}
