/**
 * The receiver object of `AudioInputReceiver.java`: the settings its
 * seven-argument constructor derives, the request flags that other threads
 * set, and the capture thread's loop. Each step of a pass is a method that
 * updates the object's fields and is proved to do what the matching function
 * of module Recording says.
 */
module Receiver {
  import opened Wrappers
  import opened JavaInt
  import opened WavHeader
  import opened Telemetry
  import opened Recording

  /** The recorder's buffer is this many read buffers long. */
  const RECORDING_BUFFER_FACTOR: int := 5

  /** The channel mask for a channel count: stereo for 2, mono otherwise. */
  function ChannelConfigFor(channels: int32): (mask: int32)
    ensures mask == CHANNEL_IN_STEREO <==> channels == 2
    ensures mask == CHANNEL_IN_MONO || mask == CHANNEL_IN_STEREO
  {
    if channels == 2 then CHANNEL_IN_STEREO else CHANNEL_IN_MONO
  }

  /** The encoding for the format argument. The source compares the string
      with `==`, which is reference identity in Java, so the argument is
      modelled by whether that comparison holds. */
  function AudioFormatFor(formatIsPcm8BitLiteral: bool): (encoding: int32)
    ensures encoding == ENCODING_PCM_8BIT <==> formatIsPcm8BitLiteral
    ensures encoding == ENCODING_PCM_8BIT || encoding == ENCODING_PCM_16BIT
  {
    if formatIsPcm8BitLiteral then ENCODING_PCM_8BIT else ENCODING_PCM_16BIT
  }

  /** Five read buffers, computed in Java `int` arithmetic, but never less than
      the minimum the platform reports. */
  function RecordingBufferSize(readBufferSize: int32, minBufferSize: int32): (size: int32)
    ensures size >= minBufferSize && size >= ToInt32(readBufferSize * RECORDING_BUFFER_FACTOR)
    ensures size == minBufferSize || size == ToInt32(readBufferSize * RECORDING_BUFFER_FACTOR)
  {
    var size := ToInt32(readBufferSize * RECORDING_BUFFER_FACTOR);
    if size < minBufferSize then minBufferSize else size
  }

  /** Without overflow the recorder's buffer is the larger of five read
      buffers and the platform minimum. */
  lemma RecordingBufferSizeNoOverflow(readBufferSize: int32, minBufferSize: int32)
    requires -0x8000_0000 <= readBufferSize * RECORDING_BUFFER_FACTOR < 0x8000_0000
    ensures RecordingBufferSize(readBufferSize, minBufferSize)
            == Max(readBufferSize * RECORDING_BUFFER_FACTOR, minBufferSize)
  {
  }

  /** Whatever the constructor is given, the header writer accepts the format
      it configures: a mono or stereo mask and 8- or 16-bit samples. */
  lemma ConfiguredFormatAccepted(channels: int32, formatIsPcm8BitLiteral: bool, sampleRate: int32)
    ensures var header := WavHeaderFor(ChannelConfigFor(channels), sampleRate, AudioFormatFor(formatIsPcm8BitLiteral));
            && header.Success? && |header.value| == HEADER_SIZE
            && ParseHeader(header.value)
               == Some(WavInfo(0, 16, 1, if channels == 2 then 2 else 1, sampleRate % TWO_POW_32,
                               (sampleRate * (if channels == 2 then 2 else 1)
                                * (if formatIsPcm8BitLiteral then 1 else 2)) % TWO_POW_32,
                               (if channels == 2 then 2 else 1) * (if formatIsPcm8BitLiteral then 1 else 2),
                               if formatIsPcm8BitLiteral then 8 else 16, 0))
  {
  }

  class AudioInputReceiver {
    // Fixed by the constructor.
    const sampleRateInHz: int32
    const inputChannelConfig: int32
    const audioFormat: int32
    const readBufferSize: int32
    const minBufferSize: int32
    const recordingBufferSize: int32
    const monitorSampleRate: int32
    /** What `writeWavHeader` produces for the configured format; its inputs
        are fixed here, so it is computed once. */
    const wavHeader: Result<seq<byte>, FormatError>
    /** The capture buffer `run()` allocates, `readBufferSize` bytes long. */
    const audioBuffer: array<byte>

    // Set by other threads, consumed by the capture loop.
    var startRecording: bool
    var recording: bool
    var finishRecording: bool
    var monitoring: bool
    var folderPath: string
    var fileName: string

    // The locals of run() that live from one pass to the next.
    var outputFile: Option<FileRef>
    var total: nat

    // The bytes of the current output file.
    var wav: seq<byte>

    /** The header writer's result and the telemetry step, as the loop uses them. */
    function Settings(): Config
    {
      Config(wavHeader, monitorSampleRate)
    }

    /** The receiver's state as a value. */
    ghost function Snapshot(): State
      reads this, audioBuffer
    {
      State(startRecording, recording, finishRecording, monitoring, folderPath, fileName,
            outputFile, total, audioBuffer[..], wav)
    }

    /** The configured format has a header, and the recording invariant holds
        for it in state `st`. */
    ghost predicate Consistent(st: State)
    {
      && Settings().header.Success?
      && |Settings().header.value| == HEADER_SIZE
      && ParseHeader(Settings().header.value).Some?
      && Inv(st, Settings().header.value)
    }

    /** The receiver's current state is consistent. */
    ghost predicate Valid()
      reads this, audioBuffer
    {
      Consistent(Snapshot())
    }

    /** A pass keeps a consistent state consistent. */
    lemma IterationConsistent(st: State, read: ReadResult, faults: IoFaults)
      requires Consistent(st) && ValidRead(read, |st.audioBuffer|)
      ensures Consistent(Iteration(st, Settings(), read, faults).state)
    {
      IterationInv(st, Settings(), Settings().header.value, read, faults);
    }

    /** `AudioInputReceiver(sampleRate, bufferSizeInBytes, channels, format,
        audioSource, monitoring, monitorSampleRate)`. The platform's minimum
        buffer size is an argument here; the audio source only reaches the
        recorder, which is not part of this model. */
    constructor (sampleRate: int32, bufferSizeInBytes: int32, channels: int32, formatIsPcm8BitLiteral: bool,
                 monitoring: bool, monitorSampleRate: int32, minBufferSize: int32)
      ensures sampleRateInHz == sampleRate && readBufferSize == bufferSizeInBytes
      ensures inputChannelConfig == ChannelConfigFor(channels)
      ensures audioFormat == AudioFormatFor(formatIsPcm8BitLiteral)
      ensures this.minBufferSize == minBufferSize
      ensures recordingBufferSize == RecordingBufferSize(bufferSizeInBytes, minBufferSize)
      ensures this.monitorSampleRate == monitorSampleRate && this.monitoring == monitoring
      ensures wavHeader == WavHeaderFor(inputChannelConfig, sampleRateInHz, audioFormat)
      ensures fresh(audioBuffer) && audioBuffer.Length == Max(bufferSizeInBytes, 0)
      ensures Initial(Snapshot()) && folderPath == "" && fileName == ""
      ensures Valid()
    {
      this.monitoring := monitoring;
      this.monitorSampleRate := monitorSampleRate;
      sampleRateInHz := sampleRate;
      inputChannelConfig := ChannelConfigFor(channels);
      audioFormat := AudioFormatFor(formatIsPcm8BitLiteral);
      readBufferSize := bufferSizeInBytes;
      this.minBufferSize := minBufferSize;
      recordingBufferSize := RecordingBufferSize(bufferSizeInBytes, minBufferSize);
      startRecording, recording, finishRecording := false, false, false;
      folderPath, fileName := "", "";
      outputFile, total, wav := None, 0, [];
      ConfiguredFormatAccepted(channels, formatIsPcm8BitLiteral, sampleRate);
      wavHeader := WavHeaderFor(ChannelConfigFor(channels), sampleRate, AudioFormatFor(formatIsPcm8BitLiteral));
      audioBuffer := new byte[Max(bufferSizeInBytes, 0)];
    }

    /** `setMonitoring(monitoring)`. */
    method SetMonitoring(monitoring: bool)
      modifies this
      ensures Snapshot() == WithMonitoring(old(Snapshot()), monitoring)
      ensures old(Valid()) ==> Valid()
    {
      this.monitoring := monitoring;
      if old(Valid()) {
        RequestsKeepInv(old(Snapshot()), Settings().header.value, "", "", monitoring);
      }
    }

    /** `startRecording(folderPath, fileName, context)`. */
    method StartRecording(folderPath: string, fileName: string)
      modifies this
      ensures Snapshot() == RequestStart(old(Snapshot()), folderPath, fileName)
      ensures old(Valid()) ==> Valid()
    {
      this.folderPath := folderPath;
      this.fileName := fileName;
      startRecording := true;
      if old(Valid()) {
        RequestsKeepInv(old(Snapshot()), Settings().header.value, folderPath, fileName, false);
      }
    }

    /** `finishRecording()`. */
    method FinishRecording()
      modifies this
      ensures Snapshot() == RequestFinish(old(Snapshot()))
      ensures old(Valid()) ==> Valid()
    {
      finishRecording := true;
      if old(Valid()) {
        RequestsKeepInv(old(Snapshot()), Settings().header.value, "", "", false);
      }
    }

    /** Step 1 of a pass: consume a start request. */
    method ConsumeStartRequest(headerWriteFails: bool) returns (halted: bool)
      modifies this
      ensures Step(Snapshot(), halted) == ConsumeStart(old(Snapshot()), Settings(), headerWriteFails)
    {
      halted := false;
      if startRecording {
        startRecording := false;
        recording := true;
        outputFile := Some(FileRef(folderPath, fileName));
        wav := [];
        if headerWriteFails {
          recording := false;
        } else {
          match wavHeader
          case Failure(_) =>
            halted := true;
          case Success(header) =>
            wav := header;
        }
      }
    }

    /** Step 2: the recorder stores the bytes it read at the front of the buffer. */
    method ReadBlock(read: ReadResult) returns (numReadBytes: int)
      requires ValidRead(read, audioBuffer.Length)
      modifies audioBuffer
      ensures numReadBytes == NumReadBytes(read)
      ensures Snapshot() == ReadInto(old(Snapshot()), read)
    {
      if read.Read? {
        forall i | 0 <= i < |read.bytes| {
          audioBuffer[i] := read.bytes[i];
        }
        assert audioBuffer[..] == read.bytes + old(audioBuffer[..])[|read.bytes|..];
      }
      numReadBytes := NumReadBytes(read);
    }

    /** Step 4: consume a finish request and patch the header sizes. */
    method HandleFinishRequest(patchFails: bool) returns (halted: bool)
      modifies this
      ensures Step(Snapshot(), halted) == HandleFinish(old(Snapshot()), patchFails)
    {
      halted := false;
      if finishRecording {
        recording := false;
        finishRecording := false;
        total := 0;
        if outputFile.None? {
          halted := true;
        } else if !patchFails {
          wav := UpdateWavHeader(wav);
        }
      }
    }

    /** The byte-at-a-time write of step 5 once the ceiling is passed: it goes
        on while bytes remain and the count is at most 2^32 - 1. */
    method WriteToCeiling(numReadBytes: int)
      requires numReadBytes <= audioBuffer.Length
      modifies this
      ensures var written := CeilingWrite(old(total), numReadBytes);
              Snapshot() == old(Snapshot()).(wav := old(wav) + audioBuffer[..written], total := old(total) + written)
    {
      ghost var s := Snapshot();
      var i := 0;
      while i < numReadBytes && total <= MAX_WAV_DATA
        invariant 0 <= i <= CeilingWrite(s.total, numReadBytes) <= Max(numReadBytes, 0)
        invariant total == s.total + i && wav == s.wav + s.audioBuffer[..i]
        invariant Snapshot() == s.(wav := wav, total := total)
        decreases numReadBytes - i
      {
        assert s.audioBuffer[..i + 1] == s.audioBuffer[..i] + [audioBuffer[i]];
        wav := wav + [audioBuffer[i]];
        i := i + 1;
        total := total + 1;
      }
    }

    /** Step 5: append the block to the recording, or, past the ceiling, as
        much of it as fits, and then request a finish. */
    method AppendToRecording(numReadBytes: int, appendFails: bool) returns (halted: bool)
      requires numReadBytes <= audioBuffer.Length
      modifies this
      ensures Step(Snapshot(), halted) == AppendBlock(old(Snapshot()), numReadBytes, appendFails)
    {
      halted := false;
      if recording {
        if total + numReadBytes > MAX_WAV_DATA {
          if appendFails && numReadBytes > 0 && total <= MAX_WAV_DATA {
            recording := false;
          } else {
            WriteToCeiling(numReadBytes);
            finishRecording := true;
            recording := false;
          }
        } else if numReadBytes < 0 {
          halted := true;
        } else if appendFails && numReadBytes > 0 {
          recording := false;
        } else {
          wav := wav + audioBuffer[..numReadBytes];
          total := total + numReadBytes;
        }
      }
    }

    /** Step 6: the telemetry frame, when the read returned data. */
    method SendTelemetry(numReadBytes: int) returns (telemetry: Option<Telemetry>)
      ensures telemetry == TelemetryFor(Snapshot(), Settings(), numReadBytes)
    {
      if numReadBytes > 0 {
        var frame := Decimate(audioBuffer[..], monitorSampleRate);
        telemetry := Some(frame);
      } else {
        telemetry := None;
      }
    }

    /** Steps 3 to 6, after the read: play the buffer back when monitoring,
        then finish, append and send telemetry, stopping at the first step
        that ends the thread. */
    method ProcessBlock(numReadBytes: int, faults: IoFaults)
      returns (monitorOut: Option<seq<byte>>, telemetry: Option<Telemetry>, halted: bool)
      requires numReadBytes <= audioBuffer.Length
      modifies this
      ensures Pass(Snapshot(), monitorOut, telemetry, halted)
              == AfterRead(old(Snapshot()), Settings(), numReadBytes, faults)
    {
      monitorOut, telemetry := None, None;
      if monitoring {
        monitorOut := Some(audioBuffer[..]);
      }
      halted := HandleFinishRequest(faults.patchFails);
      if halted {
        return;
      }
      halted := AppendToRecording(numReadBytes, faults.appendFails);
      if halted {
        return;
      }
      telemetry := SendTelemetry(numReadBytes);
    }

    /** One pass of the loop in `run()`. */
    method RunIteration(read: ReadResult, faults: IoFaults)
      returns (monitorOut: Option<seq<byte>>, telemetry: Option<Telemetry>, halted: bool)
      requires ValidRead(read, audioBuffer.Length)
      modifies this, audioBuffer
      ensures Pass(Snapshot(), monitorOut, telemetry, halted) == Iteration(old(Snapshot()), Settings(), read, faults)
      ensures old(Valid()) ==> Valid()
    {
      if Valid() {
        IterationConsistent(Snapshot(), read, faults);
      }
      monitorOut, telemetry := None, None;
      halted := ConsumeStartRequest(faults.headerWriteFails);
      if halted {
        return;
      }
      var numReadBytes := ReadBlock(read);
      monitorOut, telemetry, halted := ProcessBlock(numReadBytes, faults);
    }

    /** One event of a run: a pass of the loop, or a request another thread
        makes between two passes. What the pass plays back and sends is added
        to what the run has produced so far. */
    method Deliver(e: Event, played: seq<seq<byte>>, sent: seq<Telemetry>)
      returns (played': seq<seq<byte>>, sent': seq<Telemetry>, halted: bool)
      requires e.Block? ==> ValidRead(e.read, audioBuffer.Length)
      modifies this, audioBuffer
      ensures Trace(Snapshot(), played', sent', halted)
              == Extend(Trace(old(Snapshot()), played, sent, false), OnEvent(old(Snapshot()), Settings(), e))
      ensures old(Valid()) ==> Valid()
    {
      match e
      case Block(read, faults) =>
        var monitorOut, telemetry;
        monitorOut, telemetry, halted := RunIteration(read, faults);
        played' := played + (if monitorOut.Some? then [monitorOut.value] else []);
        sent' := sent + (if telemetry.Some? then [telemetry.value] else []);
      case StartRequest(folderPath, fileName) =>
        StartRecording(folderPath, fileName);
        played', sent', halted := played + [], sent + [], false;
      case FinishRequest =>
        FinishRecording();
        played', sent', halted := played + [], sent + [], false;
      case MonitoringRequest(monitoring) =>
        SetMonitoring(monitoring);
        played', sent', halted := played + [], sent + [], false;
    }

    /** `run()`: allocate the buffer, then take the events in order (a pass
        of the loop per block, the other threads' requests in between) until
        a pass ends the thread or the events run out (the thread is
        interrupted). A negative buffer size ends the thread before the
        loop. */
    method Run(events: seq<Event>)
      returns (played: seq<seq<byte>>, sent: seq<Telemetry>, halted: bool)
      requires audioBuffer.Length == Max(readBufferSize, 0)
      requires ValidEvents(events, audioBuffer.Length)
      requires Valid() && !recording
      modifies this, audioBuffer
      ensures readBufferSize < 0 ==> halted && played == [] && sent == [] && Snapshot() == old(Snapshot())
      ensures readBufferSize >= 0 ==>
                Trace(Snapshot(), played, sent, halted)
                == Drive(StartOfRun(old(Snapshot()), audioBuffer.Length), Settings(), events)
      ensures Valid()
    {
      if readBufferSize < 0 {
        return [], [], true;
      }
      ghost var start := StartOfRun(Snapshot(), audioBuffer.Length);
      StartOfRunInv(Snapshot(), Settings().header.value, audioBuffer.Length);
      forall i | 0 <= i < audioBuffer.Length {
        audioBuffer[i] := 0;
      }
      outputFile, total := None, 0;
      assert Snapshot() == start;
      played, sent, halted := [], [], false;
      ResumeStart(start, Settings(), events);
      var k := 0;
      while k < |events| && !halted
        invariant 0 <= k <= |events|
        invariant ValidEvents(events[k..], audioBuffer.Length)
        invariant Resume(Trace(Snapshot(), played, sent, halted), Settings(), events[k..])
                  == Drive(start, Settings(), events)
        invariant Valid()
        decreases |events| - k
      {
        ghost var sofar := Trace(Snapshot(), played, sent, halted);
        ResumeStep(sofar, Settings(), events[k..]);
        assert events[k..][0] == events[k] && events[k..][1..] == events[k + 1..];
        played, sent, halted := Deliver(events[k], played, sent);
        k := k + 1;
      }
      if !halted {
        ResumeEnd(Trace(Snapshot(), played, sent, halted), Settings());
      }
    }
  }
}
