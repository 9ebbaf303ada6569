/** Failed attempts: exponential backoff and the bounded error log, shared by the outbox
    (src/db/outbox.rs) and the blob table (src/db/blobs.rs). */
module Retry {
  import opened Base

  datatype Failure = Failure(at: int, error: string)

  /** The retry columns of a row. */
  datatype Retry = Retry(retries: int, nextRetryAt: int, lastError: Option<string>, log: seq<Failure>)

  const NO_RETRY := Retry(0, 0, None, [])
  const BACKOFF_CAP_MS := 300_000
  const LOG_CAP: nat := 20

  function Pow2(n: nat): (p: nat)
    ensures p >= 1
  {
    if n == 0 then 1 else 2 * Pow2(n - 1)
  }

  /** `n as u32`: the low 32 bits. */
  function AsU32(n: int): (e: nat)
    ensures e < 0x1_0000_0000
    ensures 0 <= n < 0x1_0000_0000 ==> e == n
  {
    n % 0x1_0000_0000
  }

  /** `2i64.saturating_pow(n as u32)` */
  function SaturatingPow2(n: int): int {
    if AsU32(n) >= 63 then I64_MAX else Pow2(AsU32(n))
  }

  /** `1000i64.saturating_mul(..).min(300_000)` */
  function Backoff(retries: int): int {
    Min(Min(1000 * SaturatingPow2(retries), I64_MAX), BACKOFF_CAP_MS)
  }

  /** The last n elements of s. */
  function Last<T>(s: seq<T>, n: nat): seq<T> {
    if |s| <= n then s else s[|s| - n..]
  }

  /** One failed attempt at time `now`. */
  function Mark(r: Retry, now: int, error: string): Retry {
    Retry(r.retries + 1, now + Backoff(r.retries), Some(error), Last(r.log + [Failure(now, error)], LOG_CAP))
  }

  /** The log after one more failure, in the vector operations of the source. */
  method AppendToErrorLog(existing: seq<Failure>, now: int, error: string) returns (log: seq<Failure>)
    ensures log == Last(existing + [Failure(now, error)], LOG_CAP)
  {
    log := existing;
    log := log + [Failure(now, error)];
    if |log| > LOG_CAP {
      log := log[|log| - LOG_CAP..];
    }
  }

  lemma {:induction false} Pow2Monotone(m: nat, n: nat)
    requires m <= n
    ensures Pow2(m) <= Pow2(n)
  {
    if m < n { Pow2Monotone(m, n - 1); }
  }

  lemma NinthPower(n: nat)
    ensures n >= 9 ==> Pow2(n) >= 512
    ensures n < 9 ==> Pow2(n) <= 256
  {
    assert Pow2(8) == 256 && Pow2(9) == 512;
    if n >= 9 { Pow2Monotone(9, n); } else { Pow2Monotone(n, 8); }
  }

  /** Saturation never shows below the cap: the delay is the capped power of the exponent that
      survives the cast. */
  lemma BackoffOfExponent(n: nat)
    ensures Backoff(n) == Min(1000 * Pow2(AsU32(n)), BACKOFF_CAP_MS)
  {
    NinthPower(AsU32(n));
  }

  /** The intended delay, 2^n seconds up to the cap, is what the saturating 64-bit operations
      yield exactly when the 32-bit cast does not turn n into a small exponent. */
  lemma BackoffExactly(n: nat)
    ensures Backoff(n) == Min(1000 * Pow2(n), 300_000) <==> (n < 0x1_0000_0000 || n % 0x1_0000_0000 >= 9)
  {
    var e := AsU32(n);
    BackoffOfExponent(n);
    NinthPower(n);
    NinthPower(e);
    if n >= 0x1_0000_0000 {
      CapDecides(Pow2(n), Pow2(e), e);
    }
  }

  /** A large power against the power of a wrapped exponent. */
  lemma CapDecides(p: nat, q: nat, e: nat)
    requires p >= 512 && (e >= 9 ==> q >= 512) && (e < 9 ==> q <= 256)
    ensures Min(1000 * q, BACKOFF_CAP_MS) == Min(1000 * p, BACKOFF_CAP_MS) <==> e >= 9
  {
  }

  /** The row after a series of failed attempts. */
  function MarkAll(r: Retry, failures: seq<Failure>): Retry {
    if failures == [] then r
    else
      var last := failures[|failures| - 1];
      Mark(MarkAll(r, failures[..|failures| - 1]), last.at, last.error)
  }

  /** The n-th failure of a row in a run shorter than 2^32 sets the count to n, delays the next
      attempt by min(2^(n-1) s, 300 s) from that failure, and leaves the log holding the last
      twenty failures, oldest first. */
  lemma {:induction false} RetryRun(failures: seq<Failure>)
    requires 0 < |failures| <= 0x1_0000_0000
    ensures var n := |failures|; var r := MarkAll(NO_RETRY, failures);
      && r.retries == n
      && r.nextRetryAt == failures[n - 1].at + Min(1000 * Pow2(n - 1), 300_000)
      && r.lastError == Some(failures[n - 1].error)
      && r.log == failures[if n <= 20 then 0 else n - 20..]
  {
    var n := |failures|;
    var front := failures[..n - 1];
    BackoffExactly(n - 1);
    if n > 1 {
      RetryRun(front);
      assert front + [failures[n - 1]] == failures;
      LastOfLast(front, failures[n - 1], LOG_CAP);
    } else {
      assert front == [];
      assert NO_RETRY.log + [failures[0]] == failures;
    }
  }

  /** The delays in milliseconds: a second after the first failure, twice as long each time, five
      minutes from the tenth on. */
  lemma BackoffTable(n: nat)
    requires n < 0x1_0000_0000
    ensures n < 9 ==> Backoff(n) == [1000, 2000, 4000, 8000, 16000, 32000, 64000, 128000, 256000][n]
    ensures n >= 9 ==> Backoff(n) == 300_000
  {
    BackoffExactly(n);
    NinthPower(n);
    assert Pow2(1) == 2 && Pow2(2) == 4 && Pow2(3) == 8;
    assert Pow2(4) == 16 && Pow2(5) == 32 && Pow2(6) == 64 && Pow2(7) == 128 && Pow2(8) == 256;
  }

  /** One failure: what the statement writes, for a row that failed fewer than 2^32 times before. */
  lemma MarkExactly(r: Retry, now: int, error: string)
    requires 0 <= r.retries < 0x1_0000_0000
    ensures var m := Mark(r, now, error); var log := r.log + [Failure(now, error)];
      && m.retries == r.retries + 1
      && m.nextRetryAt == now + Min(1000 * Pow2(r.retries), 300_000)
      && m.lastError == Some(error)
      && m.log == log[if |log| <= 20 then 0 else |log| - 20..]
  {
    BackoffExactly(r.retries);
  }

  lemma LastOfLast<T>(s: seq<T>, x: T, n: nat)
    ensures Last(Last(s, n) + [x], n) == Last(s + [x], n)
  {
    assert |s| > n ==> (Last(s, n) + [x])[1..] == (s + [x])[|s| + 1 - n..];
  }
}
