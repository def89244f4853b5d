/** Folds over one numeric field of the first `n` streams, defined from the
    back so that a loop visiting the streams in order extends them by one
    stream per step. */
module Aggregates {
  import opened VideoCodecTypes

  function Max(a: int, b: int): int { if a < b then b else a }

  function Min(a: int, b: int): int { if a < b then a else b }

  /** The per-stream values the translation aggregates; bitrates in whole
      kbit/s. */
  datatype StreamField = Width | Height | MaxQp | MinKbps | MaxKbps

  function FieldOf(s: VideoStream, f: StreamField): int
  {
    match f
    case Width => s.width
    case Height => s.height
    case MaxQp => s.maxQp
    case MinKbps => s.minBitrateBps / 1000
    case MaxKbps => s.maxBitrateBps / 1000
  }

  /** The largest value of the first `n` streams, starting from a zero
      accumulator, so never negative. */
  function MaxOver(streams: seq<VideoStream>, f: StreamField, n: nat): (r: int)
    requires n <= |streams|
    ensures 0 <= r
  {
    if n == 0 then 0 else Max(MaxOver(streams, f, n - 1), FieldOf(streams[n - 1], f))
  }

  /** The smallest value of the first `n` streams, `n` positive; never above
      the first stream's value, whatever floor that value had before. */
  function MinOver(streams: seq<VideoStream>, f: StreamField, n: nat): (r: int)
    requires 0 < n <= |streams|
    ensures r <= FieldOf(streams[0], f)
  {
    if n == 1 then FieldOf(streams[0], f)
    else Min(MinOver(streams, f, n - 1), FieldOf(streams[n - 1], f))
  }

  /** The sum of the values of the first `n` streams, from a zero
      accumulator: a single stream sums to its own value. */
  function SumOver(streams: seq<VideoStream>, f: StreamField, n: nat): (r: int)
    requires n <= |streams|
    ensures n == 1 ==> r == FieldOf(streams[0], f)
  {
    if n == 0 then 0 else SumOver(streams, f, n - 1) + FieldOf(streams[n - 1], f)
  }

  /** Over non-negative values the sum bounds each of them and is zero
      exactly when all of them are. */
  lemma {:induction false} SumOverBounds(streams: seq<VideoStream>, f: StreamField, n: nat)
    requires n <= |streams|
    requires forall k :: 0 <= k < n ==> 0 <= FieldOf(streams[k], f)
    ensures forall k :: 0 <= k < n ==> FieldOf(streams[k], f) <= SumOver(streams, f, n)
    ensures SumOver(streams, f, n) == 0 <==> forall k :: 0 <= k < n ==> FieldOf(streams[k], f) == 0
  {
    if n > 0 {
      SumOverBounds(streams, f, n - 1);
    }
  }

  /** The maximum bounds the value of each of the first `n` streams. */
  lemma {:induction false} MaxOverBounds(streams: seq<VideoStream>, f: StreamField, n: nat)
    requires n <= |streams|
    ensures forall k :: 0 <= k < n ==> FieldOf(streams[k], f) <= MaxOver(streams, f, n)
  {
    if n > 0 {
      MaxOverBounds(streams, f, n - 1);
    }
  }

  /** The minimum is bounded by the value of each of the first `n` streams. */
  lemma {:induction false} MinOverBounds(streams: seq<VideoStream>, f: StreamField, n: nat)
    requires 0 < n <= |streams|
    ensures forall k :: 0 <= k < n ==> MinOver(streams, f, n) <= FieldOf(streams[k], f)
  {
    if n > 1 {
      MinOverBounds(streams, f, n - 1);
    }
  }

  /** Over non-negative values of at least one stream the maximum is one of
      the values. */
  lemma {:induction false} MaxOverAttained(streams: seq<VideoStream>, f: StreamField, n: nat)
    returns (k: nat)
    requires 0 < n <= |streams|
    requires forall j :: 0 <= j < n ==> 0 <= FieldOf(streams[j], f)
    ensures k < n && FieldOf(streams[k], f) == MaxOver(streams, f, n)
  {
    if n == 1 {
      k := 0;
    } else {
      k := MaxOverAttained(streams, f, n - 1);
      if MaxOver(streams, f, n - 1) < FieldOf(streams[n - 1], f) {
        k := n - 1;
      }
    }
  }

  /** The minimum of at least one stream is one of the values. */
  lemma {:induction false} MinOverAttained(streams: seq<VideoStream>, f: StreamField, n: nat)
    returns (k: nat)
    requires 0 < n <= |streams|
    ensures k < n && FieldOf(streams[k], f) == MinOver(streams, f, n)
  {
    if n == 1 {
      k := 0;
    } else {
      k := MinOverAttained(streams, f, n - 1);
      if FieldOf(streams[n - 1], f) < MinOver(streams, f, n - 1) {
        k := n - 1;
      }
    }
  }
}
