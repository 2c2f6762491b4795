# AudioInputReceiver, modelled in Dafny

This project models the recording and telemetry core of the Android
`AudioInputReceiver` of the audioinput capture plugin. That is the thread
that reads PCM blocks from the microphone and does three things with them:

- plays them back while monitoring is on;
- writes them into a WAV file, between a start request and a finish request;
- when a read returned data, sends the host a decimated telemetry frame.
  The frame is taken from the whole buffer, so bytes left over from an
  earlier, longer read are part of it.

The model has six modules, and the properties below are proved about them:

- `Wrappers` (`wrappers.dfy`) holds the `Option` and `Result` types used for
  an absent file or frame and for a header the writer rejects.
- `JavaInt` (`java_int.dfy`) holds Java's `short`/`int` ranges, the narrowing
  cast `(int)`, and integer division rounding toward zero.
- `WavHeader` (`wav_header.dfy`) covers the 44-byte RIFF/WAVE header.
  - `EncodeHeader` is the `short` overload of `writeWavHeader`.
  - `WavHeaderFor` is the `int` overload, which maps Android format
    constants and rejects the others.
  - `UpdateWavHeader` is `updateWavHeader`: it patches ChunkSize and
    Subchunk2Size at offsets 4 and 40 through a seek-and-write on the file's
    bytes.
  - `ParseHeader` is an independent little-endian reader of the header,
    used to state the round trips.
- `Telemetry` (`telemetry.dfy`) covers the decimated frame.
  - `Decimated` is the specification.
  - `Decimate` is the source's allocate-and-fill loop, proved equal to it.
- `Recording` (`recording.dfy`) holds the receiver's state as a value:
  - one function per step of a pass of the `run()` loop, and `Iteration`
    for a whole pass;
  - `Session` for a run of passes, and `Drive` for a run whose passes are
    interleaved with the start, finish and monitoring requests of other
    threads (an `Event` is a pass or one request);
  - the recording invariant `Inv`;
  - the lemmas about passes and sessions.
- `Receiver` (`audio_input_receiver.dfy`) holds the class
  `AudioInputReceiver`:
  - its fields, and the settings its seven-argument constructor derives;
  - the three request setters;
  - one method per step of a pass, each proved to do what the matching
    `Recording` function says;
  - `RunIteration` for one pass, `Deliver` for one event and `Run` for the
    whole loop.
  - The constructor establishes the class invariant `Valid()`. The request
    setters, `RunIteration`, `Deliver` and `Run` keep it.

An exception that escapes the loop of `run()` ends the thread, and the model
reports it as `halted`. Three exceptions do this:

- a format the header writer rejects;
- a finish request when no output file was ever opened, which
  dereferences null;
- a negative read count reaching the append, which the stream rejects.

I/O failures are given as parameters (`IoFaults`), one flag per file
operation of a pass.

Two behaviours of the code are worth knowing, and both are modelled as
written:

- **Ceiling overshoot.** The byte-at-a-time loop at the 4 GB ceiling writes
  while the count is at most 2^32 - 1, so its last byte is byte number
  2^32. The count starts at zero with a run, and a restart does not reset
  it. A recording whose count started at zero with its own file and which
  the ceiling cut therefore holds 2^32 data bytes, one more than
  Subchunk2Size can hold. After a restart the same file is cut earlier,
  once the count carried over reaches 2^32. `CeilingOvershoot` takes the
  first case (the file's data length equals the count) and proves that the
  patched header then declares 0 data bytes and a ChunkSize of 36.
  ChunkSize already wraps once the data passes 2^32 - 37 bytes.
- **Restarting.** A start request while recording reopens (truncates) the
  file and writes a fresh header, but it does not reset the byte count
  (`RestartKeepsCount`).

## Model

| member | source | states |
|---|---|---|
| JavaInt.ToInt32 | src/android/AudioInputReceiver.java:402-403 | the `(int)` cast keeps the value modulo 2^32 and is the identity on values that fit in an `int` |
| JavaInt.TruncDiv | src/android/AudioInputReceiver.java:267 | Java division rounds toward zero: the quotient of the magnitudes, negated exactly when dividend and divisor have opposite signs |
| WavHeader.ToLittleEndian | src/android/AudioInputReceiver.java:365-367 | the `putShort`/`putInt` encoding of a value is exactly `width` bytes; `DecodeEncode` and `LittleEndianModulo` state what they hold |
| WavHeader.DecodeEncode | src/android/AudioInputReceiver.java:365-367 | reading back a little-endian encoding of `x` in `width` bytes gives `x` modulo 256^width |
| WavHeader.EncodeDecode | src/android/AudioInputReceiver.java:365-367 | encoding the number a byte sequence denotes gives that byte sequence back |
| WavHeader.LittleEndianModulo | src/android/AudioInputReceiver.java:365-367 | two numbers congruent modulo 256^width have the same little-endian encoding (the wrap-around of `putInt`/`putShort`) |
| WavHeader.EncodeHeader | src/android/AudioInputReceiver.java:361-388 | the header is exactly 44 bytes |
| WavHeader.HeaderRoundTrip | src/android/AudioInputReceiver.java:361-388 | the header, followed by any data, reads back as: ChunkSize 0, Subchunk1Size 16, AudioFormat 1; the channels, sample rate and bit depth given; ByteRate = rate·channels·(bits/8) mod 2^32; BlockAlign = channels·(bits/8) mod 2^16; Subchunk2Size 0 |
| WavHeader.ChannelCount | src/android/AudioInputReceiver.java:318-328 | a supported mask stands for 1 or 2 channels, and for 2 exactly when it is the stereo mask |
| WavHeader.BitDepth | src/android/AudioInputReceiver.java:330-342 | 8 bits exactly for 8-bit PCM, 16 exactly for 16-bit PCM, and 32 otherwise (float) |
| WavHeader.WavHeaderFor | src/android/AudioInputReceiver.java:315-345 | fails exactly when the channel mask is not mono/stereo or the encoding not 8-bit/16-bit/float, naming the mask first; otherwise a 44-byte header whose fields decode to 1 or 2 channels and 8, 16 or 32 bits |
| WavHeader.AcceptedHeader | src/android/AudioInputReceiver.java:361-388 | for 1 or 2 channels and 8, 16 or 32 bits every field reads back as given, except that SampleRate and ByteRate are read modulo 2^32 |
| WavHeader.WriteAt | src/android/AudioInputReceiver.java:410-416 | seek-and-write replaces the bytes at the offset, keeps the others, and zero-fills any gap past the end of the file |
| WavHeader.UpdateWavHeader | src/android/AudioInputReceiver.java:397-429 | bytes 4-7 hold `(int)(length - 8)` and bytes 40-43 hold `(int)(length - 44)` in little-endian order; every other byte is unchanged; a file shorter than 44 bytes is extended with zeros |
| WavHeader.PatchedSizes | src/android/AudioInputReceiver.java:402-403 | the patched fields read back as length - 8 and length - 44, modulo 2^32 |
| WavHeader.UpdateWavHeaderIdempotent | src/android/AudioInputReceiver.java:397-429 | patching a file of at least 44 bytes twice gives the same file as patching it once |
| WavHeader.SameHeaderOutsideSizes | src/android/AudioInputReceiver.java:410-416 | two files that agree on the header outside the size fields parse alike, except for ChunkSize and Subchunk2Size |
| WavHeader.ParseHeaderIgnoresData | src/android/AudioInputReceiver.java:370-387 | the header fields do not depend on the data written after them |
| WavHeader.PatchedHeader | src/android/AudioInputReceiver.java:397-429 | patching a valid file sets ChunkSize and Subchunk2Size to length - 8 and length - 44 (mod 2^32), keeps the other fields, and leaves the data untouched |
| WavHeader.RecordedFileRoundTrip | src/android/AudioInputReceiver.java:361-429 | header, data, then patch: the file holds the data unchanged after 44 bytes, and the header declares the data length + 36 and the data length (mod 2^32) together with the format fields |
| Telemetry.Decimated | src/android/AudioInputReceiver.java:264-285 | an error frame exactly when the rate is 0 (division by zero) or the rate is negative and the buffer holds at least -rate bytes (negative array size); otherwise the buffer length divided by the rate rounded toward zero samples, sample i being buffer byte i·rate; empty for a negative rate |
| Telemetry.Decimate | src/android/AudioInputReceiver.java:267-273 | the allocate-and-fill loop, with its zero-fill branch, builds exactly the `Decimated` frame |
| Telemetry.FilledFrame | src/android/AudioInputReceiver.java:268-273 | a frame of the right length filled sample by sample as the loop does is the decimated frame |
| Telemetry.SamplesInRange | src/android/AudioInputReceiver.java:269-272 | for a positive rate every sampled index lies inside the buffer, so the zero-fill branch is never taken |
| Telemetry.NegativeQuotient | src/android/AudioInputReceiver.java:267 | with a negative rate the length -(n / -k) is never positive, and it is negative exactly when n >= -k |
| Telemetry.DecimateByOneIsCopy | src/android/AudioInputReceiver.java:267-273 | with the default rate 1 the frame is an exact copy of the buffer |
| Recording.RequestStart | src/android/AudioInputReceiver.java:136-149 | a start request records the folder and file name and raises the flag; nothing else changes |
| Recording.RequestFinish | src/android/AudioInputReceiver.java:151-153 | a finish request raises the flag; nothing else changes |
| Recording.WithMonitoring | src/android/AudioInputReceiver.java:132-134 | only the monitoring flag changes |
| Recording.ConsumeStart | src/android/AudioInputReceiver.java:199-218 | a pending start is cleared; recording is switched on; the file `folderPath/fileName` is reopened empty and receives the header; a failed open or header write switches recording off; otherwise a rejected format ends the thread; the count is kept |
| Recording.ReadInto | src/android/AudioInputReceiver.java:220 | the bytes read land at the front of the buffer and the rest of the buffer keeps its old contents |
| Recording.HandleFinish | src/android/AudioInputReceiver.java:225-242 | a pending finish stops recording, clears the flag, resets the count and patches the file's sizes; with no file the thread ends; a failed patch leaves the file as it was |
| Recording.CeilingWrite | src/android/AudioInputReceiver.java:249-251 | the ceiling loop writes bytes until the count reaches min(total + n, 2^32), and writes nothing when no bytes were read |
| Recording.AppendBlock | src/android/AudioInputReceiver.java:244-263 | while recording, a block that fits is appended whole and counted; a block that crosses the ceiling is appended up to a count of 2^32, then recording stops and a finish is requested; a negative count ends the thread; a failed write stops recording and counts nothing, and a write of no bytes (an empty block, or a count already past the ceiling) cannot fail |
| Recording.Iteration | src/android/AudioInputReceiver.java:198-287 | one pass keeps the buffer length, the monitoring flag and the file name |
| Recording.AfterRead | src/android/AudioInputReceiver.java:222-286 | the steps after the read keep the buffer, the monitoring flag and the file name |
| Recording.TelemetryFor | src/android/AudioInputReceiver.java:264-286 | a frame exactly when the read returned data, and then the frame decimated from the whole buffer |
| Recording.InitialInv | src/android/AudioInputReceiver.java:47-52 | the receiver's initial flags, empty file and zero count satisfy the recording invariant |
| Recording.RequestsKeepInv | src/android/AudioInputReceiver.java:132-153 | the three requests from other threads keep the invariant |
| Recording.ConsumeStartInv | src/android/AudioInputReceiver.java:199-218 | consuming a start keeps the invariant: while recording, the file starts with the header |
| Recording.HandleFinishInv | src/android/AudioInputReceiver.java:225-242 | consuming a finish keeps the invariant |
| Recording.AppendBlockInv | src/android/AudioInputReceiver.java:244-263 | appending keeps the count at most 2^32; it reaches 2^32 only with a finish pending; the file never holds more data than was counted |
| Recording.AfterReadInv | src/android/AudioInputReceiver.java:222-286 | the steps after the read keep the invariant |
| Recording.IterationInv | src/android/AudioInputReceiver.java:198-287 | every pass keeps the recording invariant, whatever the read and the faults |
| Recording.StartConsumed | src/android/AudioInputReceiver.java:199-200 | after any pass no start request is pending |
| Recording.AfterReadSteps | src/android/AudioInputReceiver.java:222-286 | the steps after the read end the thread exactly on a finish without a file, or on a negative count while recording; telemetry is sent exactly when they run to the end and the count is positive, and it is the frame decimated from the buffer |
| Recording.AfterReadMonitoring | src/android/AudioInputReceiver.java:222-223 | switching monitoring changes only whether the buffer is played back |
| Recording.ConsumeStartIgnoresMonitoring | src/android/AudioInputReceiver.java:199-218 | consuming a start does not depend on the monitoring flag |
| Recording.HandleFinishIgnoresMonitoring | src/android/AudioInputReceiver.java:225-242 | consuming a finish does not depend on the monitoring flag |
| Recording.AppendBlockIgnoresMonitoring | src/android/AudioInputReceiver.java:244-263 | appending does not depend on the monitoring flag |
| Recording.PassHalts | src/android/AudioInputReceiver.java:198-297 | a pass ends the thread exactly on: a rejected format at a start whose file opened; a finish with no file ever opened; or a negative read count reaching the append while recording with no finish pending |
| Recording.TelemetryWhenDataRead | src/android/AudioInputReceiver.java:264-286 | telemetry is sent exactly when the pass ran to its end and the read returned data; the frame is decimated from the whole buffer, whose front holds the bytes just read |
| Recording.MonitoringIndependent | src/android/AudioInputReceiver.java:222-223 | whatever the monitoring flag, a pass has the same state, halting and telemetry; the whole buffer is played back exactly when monitoring is on and the pass got past its start step |
| Recording.FinishPrecedesAppend | src/android/AudioInputReceiver.java:225-263 | a finish is handled before the append: the block read in the same pass is not recorded, the count is reset, and the file is patched as it stood |
| Recording.CeilingAppend | src/android/AudioInputReceiver.java:246-258 | a block crossing the ceiling is cut so that the count ends at exactly 2^32, then recording stops and a finish is requested; a block that fits is appended whole |
| Recording.AppendFaultStopsRecording | src/android/AudioInputReceiver.java:259-262 | a failed write of a non-empty block below the ceiling switches recording off and changes nothing else: no byte is counted and no finish is requested; with nothing to write the fault cannot strike and the pass is the one without it |
| Recording.RestartKeepsCount | src/android/AudioInputReceiver.java:199-218 | a start while recording reopens the file with a fresh header followed by the new block, and counts on from the previous total |
| Recording.Session | src/android/AudioInputReceiver.java:198-287 | a run of passes keeps the buffer length |
| Recording.PassAppends | src/android/AudioInputReceiver.java:254-258 | a pass while recording with no request and no fault appends the block whole and counts it |
| Recording.SessionAppends | src/android/AudioInputReceiver.java:244-258 | passes while recording with no request and no fault append every block, in order, and count every byte |
| Recording.RecordedSession | src/android/AudioInputReceiver.java:198-258 | after a start, the file holds the header followed by every block read |
| Recording.FirstPassStarts | src/android/AudioInputReceiver.java:199-258 | the first pass after a start opens the file, writes the header and appends the first block |
| Recording.FinishPatches | src/android/AudioInputReceiver.java:225-242 | finishing a file of header and data patches it to declare the data length + 36 and the data length and keeps the data |
| Recording.RecordingRoundTrip | src/android/AudioInputReceiver.java:198-287 | start, passes that read data, finish: the file is the configured header, patched, followed by exactly the bytes read; it parses as that header with ChunkSize the data length + 36 and Subchunk2Size the data length |
| Recording.CeilingOvershoot | src/android/AudioInputReceiver.java:246-253 | when the file's data length equals the count, a recording cut by the ceiling holds 2^32 data bytes, and the next pass patches its header to declare ChunkSize 36 and no data |
| Recording.OnEvent | src/android/AudioInputReceiver.java:132-153 | a request changes the state as the setter does, plays nothing, sends nothing and never ends the thread; every event keeps the buffer length |
| Recording.Drive | src/android/AudioInputReceiver.java:198-297 | a run of passes and requests keeps the buffer length |
| Recording.DriveBlocks | src/android/AudioInputReceiver.java:198-287 | a run with no request between its passes is the `Session` of its blocks |
| Recording.DriveAppend | src/android/AudioInputReceiver.java:198-297 | a run of two parts that does not halt in the first ends as the second part run from where the first left off |
| Recording.StartOfRun | src/android/AudioInputReceiver.java:186-191 | the loop starts with no output file, a zero count and a zero-filled buffer of the read size; every other field is as the receiver left it |
| Recording.StartOfRunInv | src/android/AudioInputReceiver.java:184-191 | a thread started while not recording begins its loop, with no file, a zero count and a fresh buffer, in a state that satisfies the recording invariant |
| Recording.OnEventInv | src/android/AudioInputReceiver.java:132-287 | every pass and every request keeps the recording invariant |
| Recording.DriveInv | src/android/AudioInputReceiver.java:132-297 | a whole run, with any requests, reads and faults, keeps the recording invariant |
| Recording.SessionInv | src/android/AudioInputReceiver.java:198-297 | a whole run of passes, with any reads and faults, keeps the recording invariant |
| Recording.FinishKeepsFile | src/android/AudioInputReceiver.java:225-242 | consuming a finish keeps the output file it patches |
| Recording.StartSessionFinish | src/android/AudioInputReceiver.java:132-287 | a start request, passes that do not halt, a finish request and one more pass drive the state as the session after the start followed by the pass that consumes the finish |
| Recording.HostRecordingRoundTrip | src/android/AudioInputReceiver.java:132-287 | the host calls `startRecording(folder, name)`, blocks are read with no fault, the host calls `finishRecording()` and one more pass runs: the thread is alive and no longer recording, the count is zero, and the file `folder/name` is the configured header, patched, followed by exactly the bytes read, parsing with ChunkSize the data length + 36 and Subchunk2Size the data length |
| Recording.ResumeStep | src/android/AudioInputReceiver.java:198 | moving one event from the rest of a run into the trace so far leaves the whole trace unchanged |
| Receiver.ChannelConfigFor | src/android/AudioInputReceiver.java:90-98 | stereo exactly for 2 channels, mono otherwise |
| Receiver.AudioFormatFor | src/android/AudioInputReceiver.java:99-103 | 8-bit exactly when the format comparison holds, 16-bit otherwise |
| Receiver.RecordingBufferSize | src/android/AudioInputReceiver.java:112-119 | the larger of the platform minimum and five read buffers in wrapping `int` arithmetic: at least both, and equal to one of them |
| Receiver.RecordingBufferSizeNoOverflow | src/android/AudioInputReceiver.java:112-119 | without overflow, the recorder's buffer is the larger of five read buffers and the minimum |
| Receiver.ConfiguredFormatAccepted | src/android/AudioInputReceiver.java:90-103 | every format the constructor can configure is accepted by the header writer, with 1 or 2 channels and 8 or 16 bits |
| Receiver.AudioInputReceiver.constructor | src/android/AudioInputReceiver.java:83-126 | stores the rate, read size and monitoring settings; derives the channel mask, encoding and recorder buffer size; allocates a fresh buffer of the read size (an empty one for a negative size); starts with no request, no file and a zero count; the invariant holds |
| Receiver.AudioInputReceiver.IterationConsistent | src/android/AudioInputReceiver.java:198-287 | a pass keeps the receiver's state consistent |
| Receiver.AudioInputReceiver.SetMonitoring | src/android/AudioInputReceiver.java:132-134 | the new state is `WithMonitoring` of the old one; the invariant is kept |
| Receiver.AudioInputReceiver.StartRecording | src/android/AudioInputReceiver.java:136-149 | the new state is `RequestStart` of the old one; the invariant is kept |
| Receiver.AudioInputReceiver.FinishRecording | src/android/AudioInputReceiver.java:151-153 | the new state is `RequestFinish` of the old one; the invariant is kept |
| Receiver.AudioInputReceiver.ConsumeStartRequest | src/android/AudioInputReceiver.java:199-218 | updates the fields as `ConsumeStart` says |
| Receiver.AudioInputReceiver.ReadBlock | src/android/AudioInputReceiver.java:220 | copies the bytes read into the front of the buffer, as `ReadInto` says, and returns the count |
| Receiver.AudioInputReceiver.HandleFinishRequest | src/android/AudioInputReceiver.java:225-242 | updates the fields as `HandleFinish` says |
| Receiver.AudioInputReceiver.WriteToCeiling | src/android/AudioInputReceiver.java:249-251 | the byte-at-a-time loop appends and counts exactly `CeilingWrite` bytes and changes nothing else |
| Receiver.AudioInputReceiver.AppendToRecording | src/android/AudioInputReceiver.java:244-263 | updates the fields as `AppendBlock` says; a fault strikes only when the write has a byte to write |
| Receiver.AudioInputReceiver.SendTelemetry | src/android/AudioInputReceiver.java:264-286 | sends the decimated frame exactly when the count is positive |
| Receiver.AudioInputReceiver.ProcessBlock | src/android/AudioInputReceiver.java:222-286 | plays back, finishes, appends and sends as `AfterRead` says |
| Receiver.AudioInputReceiver.RunIteration | src/android/AudioInputReceiver.java:198-287 | one pass, with its playback, telemetry and halting, is `Iteration` of the old state; the invariant is kept |
| Receiver.AudioInputReceiver.Deliver | src/android/AudioInputReceiver.java:132-287 | one event (a pass, or a request between passes) changes the fields as `OnEvent` says and appends its playback and telemetry to what the run has produced so far; the invariant is kept |
| Receiver.AudioInputReceiver.Run | src/android/AudioInputReceiver.java:184-299 | a negative buffer size ends the thread before the loop (the exception escapes `run()` uncaught, while the loop's own exceptions are caught and logged; both are `halted`); otherwise the loop starts with no file, a zero count and a zeroed buffer, and produces exactly the `Drive` of the events (passes, with the requests that arrive between them); a receiver that is consistent and not recording stays consistent |

## Left out

- The Android devices are not modelled. The `AudioRecord` and `AudioTrack` objects, their start, stop, play, pause, flush and release calls, and the platform's minimum buffer size (an argument here) are outside the model. Each read is an input (`ReadResult`); each playback is an output (the played buffer).
- Threads are not modelled: the `synchronized` block, and `isInterrupted()`. The requests of other threads reach `Run` as events between two passes; a request that lands in the middle of a pass, between two of its field reads, is not modelled. An interruption is the end of the sequence of events `Run` is given.
- Telemetry delivery is not modelled: `Arrays.toString` of the frame, the `Bundle`, and the `Handler` message. The frame itself is the output. The handler is taken to be set, and the bundle's earlier keys are not tracked.
- File-system side effects are not modelled: creating the folder in `startRecording`, `createNewFile`, and closing the stream. The file's contents are the `wav` field, and only the current output file is tracked.
- I/O faults are modelled as failing before any byte is written, so a write with nothing to write never fails. A write that fails part-way is not modelled. A failure to open the stream is treated like a failed header write. It comes before the format check, so it switches recording off without the exception a rejected format raises, The model then shows the file emptied, where a failed open would leave it as it was.
- `AudioInputReceiver.constructor`: the `audioSource` argument is not stored, because it only reaches the recorder.
- `AudioFormatFor`: the format string is modelled by whether its `==` comparison with `"PCM_8BIT"` holds. That comparison is reference identity in Java.
- The buffer `run()` allocates is the constant array `audioBuffer`, allocated by the constructor and zeroed when `Run` starts.
- The header's inputs are fixed at construction, so `writeWavHeader`'s result is computed once, as `wavHeader`.
- The default constructor, `setHandler`, `isInitialised`, `getSourcesList` and the static source-type map are not part of this model. Neither is `AudioInputCapture.java`. None of them touches the recording or telemetry logic.
- `Log` calls and exception messages are not modelled.
