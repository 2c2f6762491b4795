/**
 * The telemetry frame sent after every read that returned data: the capture
 * buffer sampled at every k-th byte, where k is the configured monitor sample
 * rate. Any exception while building it turns the frame into an error frame.
 */
module Telemetry {
  import opened JavaInt
  import opened WavHeader

  /** The exceptions the decimation itself can raise. */
  datatype TelemetryFault =
    | DivisionByZero      // ArithmeticException: k == 0
    | NegativeArraySize   // NegativeArraySizeException: k < 0 and the buffer holds at least -k bytes

  /** A message to the host: a "data" payload or an "error" payload. */
  datatype Telemetry = Data(samples: seq<byte>) | Error(fault: TelemetryFault)

  /** Byte `i` of the decimated buffer, zero-filled past the end of the input. */
  function DecimatedSample(audioBuffer: seq<byte>, monitorSampleRate: int, i: nat): byte
    requires monitorSampleRate > 0
  {
    if |audioBuffer| > i * monitorSampleRate then audioBuffer[i * monitorSampleRate] else 0
  }

  /** The frame built from the whole capture buffer (not just the bytes the
      last read returned): `audioBuffer.length / monitorSampleRate` bytes, the
      quotient rounded toward zero, byte i being `audioBuffer[i * monitorSampleRate]`.
      Written here by cases on the sign of the rate; Decimate below computes it
      the way the source does. */
  function Decimated(audioBuffer: seq<byte>, monitorSampleRate: int32): (t: Telemetry)
    ensures t.Error? <==>
              monitorSampleRate == 0 || (monitorSampleRate < 0 && |audioBuffer| + monitorSampleRate >= 0)
    ensures monitorSampleRate == 0 ==> t == Error(DivisionByZero)
    ensures monitorSampleRate > 0 ==> t.Data? && |t.samples| == |audioBuffer| / monitorSampleRate
    ensures monitorSampleRate < 0 && t.Data? ==> t.samples == []
    ensures t.Data? ==> forall i :: 0 <= i < |t.samples| ==>
              0 <= i * monitorSampleRate < |audioBuffer| && t.samples[i] == audioBuffer[i * monitorSampleRate]
  {
    if monitorSampleRate == 0 then
      Error(DivisionByZero)
    else if monitorSampleRate < 0 then
      // the length -(n / -k) is negative exactly when n >= -k
      if |audioBuffer| + monitorSampleRate >= 0 then Error(NegativeArraySize) else Data([])
    else
      var len := |audioBuffer| / monitorSampleRate;
      var samples := seq(len, i requires 0 <= i < len => DecimatedSample(audioBuffer, monitorSampleRate, i));
      SamplesInRange(audioBuffer, monitorSampleRate, samples);
      Data(samples)
  }

  /** A quotient is at least one exactly when the dividend reaches the divisor. */
  lemma QuotientPositive(n: nat, k: int)
    requires k > 0
    ensures n / k >= 1 <==> n >= k
  {
    if n >= k {
      assert n / k == (n - k) / k + 1 by { DivModUnique(n, k, (n - k) / k + 1, (n - k) % k); }
    } else {
      DivModUnique(n, k, 0, n);
    }
  }

  /** With a negative rate the source's length -(n / -k) is never positive, and
      it is negative exactly when n >= -k. */
  lemma NegativeQuotient(n: nat, k: int, len: int)
    requires k < 0 && len == -(n / -k)
    ensures len <= 0
    ensures len < 0 <==> n + k >= 0
  {
    QuotientPositive(n, -k);
  }

  lemma MulMonotone(a: int, b: int, k: int)
    requires a <= b && k > 0
    ensures a * k <= b * k
  {
  }

  /** Below the quotient n / k, a multiple of k stays inside n. */
  lemma BelowQuotient(i: nat, k: int, n: nat)
    requires k > 0 && i < n / k
    ensures 0 <= i * k && i * k + k <= n
  {
    MulMonotone(i + 1, n / k, k);
    assert n == (n / k) * k + n % k;
  }

  /** The zero-fill branch is never taken when k >= 1. */
  lemma SamplesInRange(audioBuffer: seq<byte>, k: int, samples: seq<byte>)
    requires k > 0 && |samples| == |audioBuffer| / k
    requires forall i :: 0 <= i < |samples| ==> samples[i] == DecimatedSample(audioBuffer, k, i)
    ensures forall i :: 0 <= i < |samples| ==>
              0 <= i * k < |audioBuffer| && samples[i] == audioBuffer[i * k]
  {
    forall i | 0 <= i < |samples|
      ensures 0 <= i * k < |audioBuffer| && samples[i] == audioBuffer[i * k]
    {
      BelowQuotient(i, k, |audioBuffer|);
    }
  }

  /** With k = 1 the frame is an exact copy of the buffer. */
  lemma {:induction false} DecimateByOneIsCopy(audioBuffer: seq<byte>)
    ensures Decimated(audioBuffer, 1) == Data(audioBuffer)
  {
    var t := Decimated(audioBuffer, 1);
    assert |t.samples| == |audioBuffer|;
    forall i | 0 <= i < |audioBuffer|
      ensures t.samples[i] == audioBuffer[i]
    {
      assert i * 1 == i;
    }
  }

  /** The loop of the source: allocate the frame, then fill it index by index,
      keeping the zero-fill branch it has. */
  method Decimate(audioBuffer: seq<byte>, monitorSampleRate: int32) returns (t: Telemetry)
    ensures t == Decimated(audioBuffer, monitorSampleRate)
  {
    if monitorSampleRate == 0 {
      return Error(DivisionByZero);
    }
    var k: int := monitorSampleRate;
    var len := TruncDiv(|audioBuffer|, monitorSampleRate);
    if k < 0 {
      NegativeQuotient(|audioBuffer|, k, len);
    }
    if len < 0 {
      return Error(NegativeArraySize);
    }
    var monitorBuffer := new byte[len];
    var i := 0;
    while i < len
      invariant 0 <= i <= len
      invariant k > 0 || len == 0
      invariant forall j :: 0 <= j < i ==> monitorBuffer[j] == DecimatedSample(audioBuffer, k, j)
    {
      var at := i * k;
      assert at >= 0 by { MulMonotone(0, i, k); }
      if |audioBuffer| > at {
        monitorBuffer[i] := audioBuffer[at];
      } else {
        monitorBuffer[i] := 0;
      }
      i := i + 1;
    }
    t := Data(monitorBuffer[..]);
    if k > 0 {
      FilledFrame(audioBuffer, monitorSampleRate, monitorBuffer[..]);
    }
  }

  /** A frame of the right length filled sample by sample is the decimated frame. */
  lemma FilledFrame(audioBuffer: seq<byte>, monitorSampleRate: int32, samples: seq<byte>)
    requires monitorSampleRate > 0 && |samples| == |audioBuffer| / monitorSampleRate
    requires forall j :: 0 <= j < |samples| ==> samples[j] == DecimatedSample(audioBuffer, monitorSampleRate, j)
    ensures Decimated(audioBuffer, monitorSampleRate) == Data(samples)
  {
  }
}
