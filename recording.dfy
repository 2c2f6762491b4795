/**
 * One pass of the capture thread's loop in `AudioInputReceiver.run()`, as a
 * function of the receiver's state. In order, a pass
 *   1. consumes a pending start request: opens the output file and writes the header;
 *   2. reads a block from the recorder into the capture buffer;
 *   3. plays the whole buffer back when monitoring is on;
 *   4. consumes a pending finish request: stops recording and patches the header sizes;
 *   5. appends the block to the recording, stopping at the 32-bit size ceiling;
 *   6. sends the decimated buffer as telemetry when the read returned data.
 * An exception that escapes the loop ends the thread; the model reports it as
 * `halted` and runs none of the later steps.
 */
module Recording {
  import opened Wrappers
  import opened JavaInt
  import opened WavHeader
  import opened Telemetry

  /** The largest data size a 32-bit unsigned size field can hold. */
  const MAX_WAV_DATA: nat := 4294967295

  /** `new File(folderPath, fileName)`. */
  datatype FileRef = FileRef(folderPath: string, fileName: string)

  /** What the constructor fixed for the lifetime of the receiver: the header
      `writeWavHeader` produces for the configured channel mask, sample rate
      and encoding (or the format error it raises), and the telemetry step. */
  datatype Config = Config(header: Result<seq<byte>, FormatError>, monitorSampleRate: int32)

  /** The receiver's request flags and settings, the locals of `run()` that
      live from one pass to the next, and the bytes of the current output file. */
  datatype State = State(
    startRecording: bool, recording: bool, finishRecording: bool, monitoring: bool,
    folderPath: string, fileName: string,
    outputFile: Option<FileRef>, total: nat, audioBuffer: seq<byte>,
    wav: seq<byte>)

  /** What `recorder.read` gives back: the bytes it stored at the front of the
      buffer, or a negative error code. */
  datatype ReadResult = Read(bytes: seq<byte>) | ReadFailed(code: int)

  /** The value of `numReadBytes`. */
  function NumReadBytes(read: ReadResult): int
  {
    if read.Read? then |read.bytes| else read.code
  }

  /** What the recorder promises: never more bytes than the buffer holds, and
      a negative code on failure. */
  predicate ValidRead(read: ReadResult, bufferSize: nat)
  {
    match read
    case Read(bytes) => |bytes| <= bufferSize
    case ReadFailed(code) => code < 0
  }

  /** Which of the pass's file operations throw an IOException. */
  datatype IoFaults = IoFaults(headerWriteFails: bool, appendFails: bool, patchFails: bool)

  const NoFaults: IoFaults := IoFaults(false, false, false)

  /** A state after one step, and whether an exception ended the thread. */
  datatype Step = Step(state: State, halted: bool)

  /** The state after a pass, what was played back, what telemetry was sent. */
  datatype Pass = Pass(state: State, monitorOut: Option<seq<byte>>, telemetry: Option<Telemetry>, halted: bool)

  // ---------------------------------------------------------------------------
  // The requests other threads make

  /** `startRecording(folderPath, fileName, context)`; creating the folder is
      file-system work outside the model. */
  function RequestStart(s: State, folderPath: string, fileName: string): (r: State)
    ensures r.startRecording && r.folderPath == folderPath && r.fileName == fileName
    ensures r.(startRecording := s.startRecording, folderPath := s.folderPath, fileName := s.fileName) == s
  {
    s.(folderPath := folderPath, fileName := fileName, startRecording := true)
  }

  /** `finishRecording()`. */
  function RequestFinish(s: State): (r: State)
    ensures r.finishRecording && r.(finishRecording := s.finishRecording) == s
  {
    s.(finishRecording := true)
  }

  /** `setMonitoring(monitoring)`. */
  function WithMonitoring(s: State, monitoring: bool): (r: State)
    ensures r.monitoring == monitoring && r.(monitoring := s.monitoring) == s
  {
    s.(monitoring := monitoring)
  }

  // ---------------------------------------------------------------------------
  // The steps of one pass

  /** Step 1. A pending start is consumed: recording is switched on and the
      output file is (re)opened, which truncates it, before the header is
      written. A failed open or header write switches recording off again;
      the open comes first, so its failure also spares a rejected format the
      exception that would otherwise escape the loop. The byte count is left
      as it was. */
  function ConsumeStart(s: State, c: Config, headerWriteFails: bool): (r: Step)
    ensures r.state.audioBuffer == s.audioBuffer && r.state.monitoring == s.monitoring
    ensures r.state.folderPath == s.folderPath && r.state.fileName == s.fileName
    ensures !s.startRecording ==> r == Step(s, false)
    ensures s.startRecording ==>
              && r.halted == (c.header.Failure? && !headerWriteFails)
              && r.state.recording == (r.halted || !headerWriteFails)
              && r.state.wav == (if r.halted || headerWriteFails then [] else c.header.value)
              && r.state == s.(startRecording := false, recording := r.state.recording,
                               outputFile := Some(FileRef(s.folderPath, s.fileName)), wav := r.state.wav)
  {
    if !s.startRecording then
      Step(s, false)
    else
      var reopened := s.(startRecording := false, recording := true,
                         outputFile := Some(FileRef(s.folderPath, s.fileName)), wav := []);
      if headerWriteFails then Step(reopened.(recording := false), false)
      else
        match c.header
        case Failure(_) => Step(reopened, true)
        case Success(header) => Step(reopened.(wav := header), false)
  }

  /** Step 2. The recorder stores the bytes it read at the front of the
      buffer; the rest of the buffer keeps what the previous reads left. */
  function ReadInto(s: State, read: ReadResult): (r: State)
    requires ValidRead(read, |s.audioBuffer|)
    ensures |r.audioBuffer| == |s.audioBuffer|
    ensures read.Read? ==> r.audioBuffer[..|read.bytes|] == read.bytes
    ensures forall i :: 0 <= i < |s.audioBuffer| && !(read.Read? && i < |read.bytes|) ==>
              r.audioBuffer[i] == s.audioBuffer[i]
    ensures r.(audioBuffer := s.audioBuffer) == s
  {
    match read
    case Read(bytes) => s.(audioBuffer := bytes + s.audioBuffer[|bytes|..])
    case ReadFailed(_) => s
  }

  /** Step 4. A pending finish is consumed: recording stops, the byte count
      is reset, and the header sizes of the output file are patched. Without
      an output file the patch dereferences null and the thread ends; a failed
      patch leaves the file as it was. */
  function HandleFinish(s: State, patchFails: bool): (r: Step)
    ensures r.state.audioBuffer == s.audioBuffer && r.state.monitoring == s.monitoring
    ensures r.state.folderPath == s.folderPath && r.state.fileName == s.fileName
    ensures !s.finishRecording ==> r == Step(s, false)
    ensures s.finishRecording ==>
              && r.halted == s.outputFile.None?
              && !r.state.recording && !r.state.finishRecording && r.state.total == 0
              && r.state.wav == (if r.halted || patchFails then s.wav else UpdateWavHeader(s.wav))
              && r.state == s.(recording := false, finishRecording := false, total := 0, wav := r.state.wav)
  {
    if !s.finishRecording then
      Step(s, false)
    else
      var stopped := s.(recording := false, finishRecording := false, total := 0);
      if stopped.outputFile.None? then Step(stopped, true)
      else if patchFails then Step(stopped, false)
      else Step(stopped.(wav := UpdateWavHeader(stopped.wav)), false)
  }

  /** How many bytes the byte-by-byte loop writes when a block would carry the
      recording past the ceiling: it stops once `total` exceeds the ceiling,
      so the last byte it writes is byte number 2^32. */
  function CeilingWrite(total: nat, numReadBytes: int): (written: nat)
    ensures total <= MAX_WAV_DATA && numReadBytes >= 0 ==>
              total + written == Min(total + numReadBytes, MAX_WAV_DATA + 1)
    ensures total > MAX_WAV_DATA || numReadBytes <= 0 ==> written == 0
    ensures written <= Max(numReadBytes, 0)
  {
    if numReadBytes <= 0 || total > MAX_WAV_DATA then 0
    else Min(numReadBytes, MAX_WAV_DATA + 1 - total)
  }

  /** Step 5. While recording, the bytes read are appended and counted. A block
      that would take the count past 2^32 - 1 is written only up to the
      ceiling, after which recording stops and a finish is requested. A
      negative count escapes the loop (the stream rejects a negative length);
      a failed write switches recording off and leaves the rest alone. A
      write of no bytes does no I/O, so it cannot fail. */
  function AppendBlock(s: State, numReadBytes: int, appendFails: bool): (r: Step)
    requires numReadBytes <= |s.audioBuffer|
    ensures r.state.audioBuffer == s.audioBuffer && r.state.monitoring == s.monitoring
    ensures r.state.folderPath == s.folderPath && r.state.fileName == s.fileName
    ensures !s.startRecording ==> !r.state.startRecording
    ensures !s.recording ==> r == Step(s, false)
    ensures s.recording && numReadBytes < 0 && s.total + numReadBytes <= MAX_WAV_DATA ==> r == Step(s, true)
    ensures s.recording && appendFails && numReadBytes > 0 && s.total <= MAX_WAV_DATA ==>
              r == Step(s.(recording := false), false)
    ensures appendFails ==> r.state.wav == s.wav && r.state.total == s.total
    ensures s.recording && (!appendFails || numReadBytes == 0) && numReadBytes >= 0 && s.total <= MAX_WAV_DATA ==>
              var written := Min(s.total + numReadBytes, MAX_WAV_DATA + 1) - s.total;
              && 0 <= written <= numReadBytes
              && r == Step(s.(wav := s.wav + s.audioBuffer[..written], total := s.total + written,
                              recording := s.total + numReadBytes <= MAX_WAV_DATA,
                              finishRecording := s.finishRecording || s.total + numReadBytes > MAX_WAV_DATA),
                           false)
  {
    if !s.recording then
      Step(s, false)
    else if s.total + numReadBytes > MAX_WAV_DATA then
      var written := CeilingWrite(s.total, numReadBytes);
      if appendFails && written > 0 then Step(s.(recording := false), false)
      else
        Step(s.(wav := s.wav + s.audioBuffer[..written], total := s.total + written,
                finishRecording := true, recording := false), false)
    else if numReadBytes < 0 then
      Step(s, true)
    else if appendFails && numReadBytes > 0 then
      Step(s.(recording := false), false)
    else
      assert numReadBytes == 0 ==> s.wav + s.audioBuffer[..numReadBytes] == s.wav;
      Step(s.(wav := s.wav + s.audioBuffer[..numReadBytes], total := s.total + numReadBytes), false)
  }

  /** Step 6: the frame sent when the read returned data. */
  function TelemetryFor(s: State, c: Config, numReadBytes: int): (r: Option<Telemetry>)
    ensures r.Some? <==> numReadBytes > 0
    ensures r.Some? ==> r.value == Decimated(s.audioBuffer, c.monitorSampleRate)
  {
    if numReadBytes > 0 then Some(Decimated(s.audioBuffer, c.monitorSampleRate)) else None
  }

  /** One pass of the loop. */
  function Iteration(s: State, c: Config, read: ReadResult, faults: IoFaults): (r: Pass)
    requires ValidRead(read, |s.audioBuffer|)
    ensures |r.state.audioBuffer| == |s.audioBuffer|
    ensures r.state.monitoring == s.monitoring
    ensures r.state.folderPath == s.folderPath && r.state.fileName == s.fileName
  {
    var started := ConsumeStart(s, c, faults.headerWriteFails);
    if started.halted then
      Pass(started.state, None, None, true)
    else
      AfterRead(ReadInto(started.state, read), c, NumReadBytes(read), faults)
  }

  /** The steps of a pass that follow the read (3 to 6). */
  function AfterRead(s: State, c: Config, numReadBytes: int, faults: IoFaults): (r: Pass)
    requires numReadBytes <= |s.audioBuffer|
    ensures r.state.audioBuffer == s.audioBuffer && r.state.monitoring == s.monitoring
    ensures r.state.folderPath == s.folderPath && r.state.fileName == s.fileName
  {
    var played := if s.monitoring then Some(s.audioBuffer) else None;
    var finished := HandleFinish(s, faults.patchFails);
    if finished.halted then
      Pass(finished.state, played, None, true)
    else
      var appended := AppendBlock(finished.state, numReadBytes, faults.appendFails);
      if appended.halted then
        Pass(appended.state, played, None, true)
      else
        Pass(appended.state, played, TelemetryFor(appended.state, c, numReadBytes), false)
  }

  // ---------------------------------------------------------------------------
  // What a pass preserves

  /** The recording invariant, for the header `h` of the configured format:
      the byte count never passes 2^32, and reaches it only with a finish
      pending (which the next pass consumes before appending anything); the
      output file never holds more than a header and 2^32 data bytes; while
      recording, the file is open, starts with the header, and holds no more
      data bytes than were counted. */
  predicate Inv(s: State, h: seq<byte>)
  {
    && s.total <= MAX_WAV_DATA + 1
    && (s.total == MAX_WAV_DATA + 1 ==> s.finishRecording)
    && |s.wav| <= HEADER_SIZE + MAX_WAV_DATA + 1
    && (s.recording ==>
          && s.outputFile.Some?
          && HEADER_SIZE <= |s.wav| && s.wav[..HEADER_SIZE] == h
          && |s.wav| - HEADER_SIZE <= s.total)
  }

  /** The state a receiver starts in: no request, no file, nothing counted. */
  predicate Initial(s: State)
  {
    !s.startRecording && !s.recording && !s.finishRecording
    && s.outputFile.None? && s.total == 0 && s.wav == []
  }

  lemma InitialInv(s: State, h: seq<byte>)
    requires Initial(s)
    ensures Inv(s, h)
  {
  }

  /** Requests from other threads keep the invariant. */
  lemma RequestsKeepInv(s: State, h: seq<byte>, folderPath: string, fileName: string, monitoring: bool)
    requires Inv(s, h)
    ensures Inv(RequestStart(s, folderPath, fileName), h)
    ensures Inv(RequestFinish(s), h)
    ensures Inv(WithMonitoring(s, monitoring), h)
  {
  }

  lemma ConsumeStartInv(s: State, c: Config, h: seq<byte>, headerWriteFails: bool)
    requires c.header == Success(h) && |h| == HEADER_SIZE && Inv(s, h)
    ensures Inv(ConsumeStart(s, c, headerWriteFails).state, h)
  {
  }

  lemma HandleFinishInv(s: State, h: seq<byte>, patchFails: bool)
    requires Inv(s, h)
    ensures Inv(HandleFinish(s, patchFails).state, h)
  {
  }

  lemma AppendBlockInv(s: State, h: seq<byte>, numReadBytes: int, appendFails: bool)
    requires Inv(s, h) && numReadBytes <= |s.audioBuffer|
    ensures Inv(AppendBlock(s, numReadBytes, appendFails).state, h)
  {
    var r := AppendBlock(s, numReadBytes, appendFails).state;
    if s.recording && !appendFails && numReadBytes >= 0 {
      var written := r.total - s.total;
      assert r.wav == s.wav + s.audioBuffer[..written];
      assert r.wav[..HEADER_SIZE] == s.wav[..HEADER_SIZE];
    }
  }

  lemma AfterReadInv(s: State, c: Config, h: seq<byte>, numReadBytes: int, faults: IoFaults)
    requires Inv(s, h) && numReadBytes <= |s.audioBuffer|
    ensures Inv(AfterRead(s, c, numReadBytes, faults).state, h)
  {
    var finished := HandleFinish(s, faults.patchFails);
    HandleFinishInv(s, h, faults.patchFails);
    AppendBlockInv(finished.state, h, numReadBytes, faults.appendFails);
  }

  /** Every pass keeps the invariant, whatever the faults and the read. */
  lemma IterationInv(s: State, c: Config, h: seq<byte>, read: ReadResult, faults: IoFaults)
    requires c.header == Success(h) && |h| == HEADER_SIZE && Inv(s, h) && ValidRead(read, |s.audioBuffer|)
    ensures Inv(Iteration(s, c, read, faults).state, h)
  {
    var started := ConsumeStart(s, c, faults.headerWriteFails);
    ConsumeStartInv(s, c, h, faults.headerWriteFails);
    var filled := ReadInto(started.state, read);
    assert Inv(filled, h);
    AfterReadInv(filled, c, h, NumReadBytes(read), faults);
  }

  // ---------------------------------------------------------------------------
  // What a pass does

  /** Whatever happens, a pass leaves no start request pending. */
  lemma StartConsumed(s: State, c: Config, read: ReadResult, faults: IoFaults)
    requires ValidRead(read, |s.audioBuffer|)
    ensures !Iteration(s, c, read, faults).state.startRecording
  {
    var started := ConsumeStart(s, c, faults.headerWriteFails);
    if !started.halted {
      AfterReadSteps(ReadInto(started.state, read), c, NumReadBytes(read), faults);
    }
  }

  /** Steps 3 to 6: when they end the thread and when they send telemetry. */
  lemma AfterReadSteps(s: State, c: Config, numReadBytes: int, faults: IoFaults)
    requires numReadBytes <= |s.audioBuffer|
    ensures var r := AfterRead(s, c, numReadBytes, faults);
            && (!s.startRecording ==> !r.state.startRecording)
            && (r.halted <==>
                  || (s.finishRecording && s.outputFile.None?)
                  || (!s.finishRecording && s.recording && numReadBytes < 0
                      && s.total + numReadBytes <= MAX_WAV_DATA))
            && (r.telemetry.Some? <==> !r.halted && numReadBytes > 0)
            && (r.telemetry.Some? ==> r.telemetry.value == Decimated(s.audioBuffer, c.monitorSampleRate))
  {
    var finished := HandleFinish(s, faults.patchFails);
    if !finished.halted {
      var appended := AppendBlock(finished.state, numReadBytes, faults.appendFails);
    }
  }

  /** Steps 3 to 6 with monitoring switched: only the playback differs. */
  lemma AfterReadMonitoring(s: State, c: Config, numReadBytes: int, faults: IoFaults, monitoring: bool)
    requires numReadBytes <= |s.audioBuffer|
    ensures var r := AfterRead(s, c, numReadBytes, faults);
            AfterRead(WithMonitoring(s, monitoring), c, numReadBytes, faults)
            == Pass(WithMonitoring(r.state, monitoring), if monitoring then Some(s.audioBuffer) else None,
                    r.telemetry, r.halted)
  {
    var finished := HandleFinish(s, faults.patchFails);
    HandleFinishIgnoresMonitoring(s, faults.patchFails, monitoring);
    if !finished.halted {
      AppendBlockIgnoresMonitoring(finished.state, numReadBytes, faults.appendFails, monitoring);
    }
  }

  lemma ConsumeStartIgnoresMonitoring(s: State, c: Config, headerWriteFails: bool, monitoring: bool)
    ensures var r := ConsumeStart(s, c, headerWriteFails);
            ConsumeStart(WithMonitoring(s, monitoring), c, headerWriteFails)
            == Step(WithMonitoring(r.state, monitoring), r.halted)
  {
  }

  lemma HandleFinishIgnoresMonitoring(s: State, patchFails: bool, monitoring: bool)
    ensures var r := HandleFinish(s, patchFails);
            HandleFinish(WithMonitoring(s, monitoring), patchFails)
            == Step(WithMonitoring(r.state, monitoring), r.halted)
  {
  }

  lemma AppendBlockIgnoresMonitoring(s: State, numReadBytes: int, appendFails: bool, monitoring: bool)
    requires numReadBytes <= |s.audioBuffer|
    ensures var r := AppendBlock(s, numReadBytes, appendFails);
            AppendBlock(WithMonitoring(s, monitoring), numReadBytes, appendFails)
            == Step(WithMonitoring(r.state, monitoring), r.halted)
  {
  }

  /** The three ways a pass ends the thread: a format the header writer
      rejects, a finish with no output file ever opened, and a negative read
      count reaching the append. */
  lemma PassHalts(s: State, c: Config, read: ReadResult, faults: IoFaults)
    requires ValidRead(read, |s.audioBuffer|)
    ensures Iteration(s, c, read, faults).halted <==>
              || (s.startRecording && c.header.Failure? && !faults.headerWriteFails)
              || (!s.startRecording && s.finishRecording && s.outputFile.None?)
              || (&& !s.finishRecording
                  && (if s.startRecording then c.header.Success? && !faults.headerWriteFails else s.recording)
                  && NumReadBytes(read) < 0 && s.total + NumReadBytes(read) <= MAX_WAV_DATA)
  {
    var started := ConsumeStart(s, c, faults.headerWriteFails);
    if !started.halted {
      AfterReadSteps(ReadInto(started.state, read), c, NumReadBytes(read), faults);
    }
  }

  /** Telemetry is sent exactly when the pass ran to its end and the read
      returned data; the frame is taken from the whole buffer, whose front
      holds the bytes just read. */
  lemma TelemetryWhenDataRead(s: State, c: Config, read: ReadResult, faults: IoFaults)
    requires ValidRead(read, |s.audioBuffer|)
    ensures var r := Iteration(s, c, read, faults);
            && (r.telemetry.Some? <==> !r.halted && NumReadBytes(read) > 0)
            && (r.telemetry.Some? ==>
                  && r.telemetry.value == Decimated(r.state.audioBuffer, c.monitorSampleRate)
                  && r.state.audioBuffer[..|read.bytes|] == read.bytes)
  {
    var started := ConsumeStart(s, c, faults.headerWriteFails);
    if !started.halted {
      AfterReadSteps(ReadInto(started.state, read), c, NumReadBytes(read), faults);
    }
  }

  /** Monitoring only decides whether the buffer is played back: the state,
      the halting and the telemetry of a pass do not depend on it. */
  lemma MonitoringIndependent(s: State, c: Config, read: ReadResult, faults: IoFaults, monitoring: bool)
    requires ValidRead(read, |s.audioBuffer|)
    ensures var r := Iteration(s, c, read, faults);
            Iteration(WithMonitoring(s, monitoring), c, read, faults)
            == Pass(WithMonitoring(r.state, monitoring),
                    if monitoring && !(s.startRecording && c.header.Failure? && !faults.headerWriteFails)
                    then Some(r.state.audioBuffer) else None,
                    r.telemetry, r.halted)
  {
    var started := ConsumeStart(s, c, faults.headerWriteFails);
    ConsumeStartIgnoresMonitoring(s, c, faults.headerWriteFails, monitoring);
    if !started.halted {
      var filled := ReadInto(started.state, read);
      assert ReadInto(WithMonitoring(started.state, monitoring), read) == WithMonitoring(filled, monitoring);
      AfterReadMonitoring(filled, c, NumReadBytes(read), faults, monitoring);
    }
  }

  /** A finish is consumed before the append: the block read in the same pass
      is not recorded, the count is reset, and the file is patched as it
      stood (just opened and holding only the header, when a start was
      pending too). */
  lemma FinishPrecedesAppend(s: State, c: Config, read: ReadResult, faults: IoFaults)
    requires ValidRead(read, |s.audioBuffer|)
    requires s.finishRecording && (if s.startRecording then c.header.Success? else s.outputFile.Some?)
    ensures var r := Iteration(s, c, read, faults);
            var fileBefore := if !s.startRecording then s.wav
                          else if faults.headerWriteFails then [] else c.header.value;
            && !r.halted && !r.state.recording && !r.state.finishRecording && r.state.total == 0
            && r.state.wav == if faults.patchFails then fileBefore else UpdateWavHeader(fileBefore)
  {
    var started := ConsumeStart(s, c, faults.headerWriteFails);
    var filled := ReadInto(started.state, read);
    var finished := HandleFinish(filled, faults.patchFails);
    assert !finished.halted && !finished.state.recording;
  }

  /** A block that would take the count past 2^32 - 1 is cut so that the
      count ends at exactly 2^32; recording then stops and a finish is
      requested. A block that fits is appended whole. */
  lemma CeilingAppend(s: State, c: Config, h: seq<byte>, bytes: seq<byte>)
    requires Inv(s, h) && s.recording && !s.startRecording && !s.finishRecording
    requires |bytes| <= |s.audioBuffer|
    ensures var r := Iteration(s, c, Read(bytes), NoFaults);
            && !r.halted
            && r.state.total == Min(s.total + |bytes|, MAX_WAV_DATA + 1)
            && r.state.wav == s.wav + bytes[..r.state.total - s.total]
            && r.state.finishRecording == (s.total + |bytes| > MAX_WAV_DATA)
            && r.state.recording == (s.total + |bytes| <= MAX_WAV_DATA)
  {
    var filled := ReadInto(s, Read(bytes));
    var appended := AppendBlock(filled, |bytes|, false);
    var written := appended.state.total - s.total;
    assert filled.audioBuffer[..written] == bytes[..written];
  }

  /** A failed write while recording switches recording off and changes
      nothing else: no byte is counted and no finish is requested. A block
      of no bytes, or a count already past the ceiling, writes nothing, so
      the fault cannot strike and the pass is the one without it. */
  lemma AppendFaultStopsRecording(s: State, c: Config, bytes: seq<byte>)
    requires s.recording && !s.startRecording && !s.finishRecording && |bytes| <= |s.audioBuffer|
    ensures var r := Iteration(s, c, Read(bytes), IoFaults(false, true, false));
            && !r.halted
            && (|bytes| > 0 && s.total <= MAX_WAV_DATA ==> r.state == ReadInto(s, Read(bytes)).(recording := false))
            && (|bytes| == 0 || s.total > MAX_WAV_DATA ==> r == Iteration(s, c, Read(bytes), NoFaults))
  {
  }

  /** A start while already recording reopens the file with a fresh header
      but keeps counting from the previous byte count. */
  lemma RestartKeepsCount(s: State, c: Config, h: seq<byte>, bytes: seq<byte>)
    requires c.header == Success(h)
    requires s.startRecording && !s.finishRecording && |bytes| <= |s.audioBuffer|
    requires s.total + |bytes| <= MAX_WAV_DATA
    ensures var r := Iteration(s, c, Read(bytes), NoFaults);
            && !r.halted && r.state.recording && !r.state.finishRecording
            && r.state.outputFile == Some(FileRef(s.folderPath, s.fileName))
            && r.state.wav == h + bytes
            && r.state.total == s.total + |bytes|
  {
    var started := ConsumeStart(s, c, false);
    var filled := ReadInto(started.state, Read(bytes));
    assert filled.audioBuffer[..|bytes|] == bytes;
  }

  // ---------------------------------------------------------------------------
  // Several passes

  /** The state after a run of passes, what was played back and what
      telemetry was sent; the run stops at the first pass that ends the thread. */
  datatype Trace = Trace(state: State, played: seq<seq<byte>>, sent: seq<Telemetry>, halted: bool)

  predicate ValidBlocks(blocks: seq<ReadResult>, bufferSize: nat)
  {
    forall i :: 0 <= i < |blocks| ==> ValidRead(blocks[i], bufferSize)
  }

  /** Passes of the loop over a sequence of blocks, with the faults of each pass. */
  function Session(s: State, c: Config, blocks: seq<ReadResult>, faults: seq<IoFaults>): (t: Trace)
    requires |faults| == |blocks| && ValidBlocks(blocks, |s.audioBuffer|)
    ensures |t.state.audioBuffer| == |s.audioBuffer|
    decreases |blocks|
  {
    if |blocks| == 0 then
      Trace(s, [], [], false)
    else
      var pass := Iteration(s, c, blocks[0], faults[0]);
      var played := if pass.monitorOut.Some? then [pass.monitorOut.value] else [];
      var sent := if pass.telemetry.Some? then [pass.telemetry.value] else [];
      if pass.halted then
        Trace(pass.state, played, sent, true)
      else
        var rest := Session(pass.state, c, blocks[1..], faults[1..]);
        Trace(rest.state, played + rest.played, sent + rest.sent, rest.halted)
  }

  /** The bytes a sequence of blocks returned, in order. */
  function Concat(blocks: seq<ReadResult>): seq<byte>
  {
    if |blocks| == 0 then []
    else (if blocks[0].Read? then blocks[0].bytes else []) + Concat(blocks[1..])
  }

  predicate AllRead(blocks: seq<ReadResult>)
  {
    forall i :: 0 <= i < |blocks| ==> blocks[i].Read?
  }

  predicate NoFaultsIn(faults: seq<IoFaults>)
  {
    forall i :: 0 <= i < |faults| ==> faults[i] == NoFaults
  }

  /** What reaches the receiver between two checks of the loop's condition: a
      block read (with the faults of its pass), or a request from another
      thread. */
  datatype Event =
    | Block(read: ReadResult, faults: IoFaults)
    | StartRequest(folderPath: string, fileName: string)
    | FinishRequest
    | MonitoringRequest(monitoring: bool)

  predicate ValidEvents(events: seq<Event>, bufferSize: nat)
  {
    forall i :: 0 <= i < |events| && events[i].Block? ==> ValidRead(events[i].read, bufferSize)
  }

  /** A request changes only the flags and names it sets; a block is a pass
      of the loop. */
  function OnEvent(s: State, c: Config, e: Event): (r: Pass)
    requires e.Block? ==> ValidRead(e.read, |s.audioBuffer|)
    ensures |r.state.audioBuffer| == |s.audioBuffer|
    ensures !e.Block? ==> r.monitorOut.None? && r.telemetry.None? && !r.halted
  {
    match e
    case Block(read, faults) => Iteration(s, c, read, faults)
    case StartRequest(folderPath, fileName) => Pass(RequestStart(s, folderPath, fileName), None, None, false)
    case FinishRequest => Pass(RequestFinish(s), None, None, false)
    case MonitoringRequest(monitoring) => Pass(WithMonitoring(s, monitoring), None, None, false)
  }

  /** A run of the loop with requests arriving between passes; it stops at the
      first pass that ends the thread. */
  function Drive(s: State, c: Config, events: seq<Event>): (t: Trace)
    requires ValidEvents(events, |s.audioBuffer|)
    ensures |t.state.audioBuffer| == |s.audioBuffer|
    decreases |events|
  {
    if |events| == 0 then
      Trace(s, [], [], false)
    else
      var pass := OnEvent(s, c, events[0]);
      var played := if pass.monitorOut.Some? then [pass.monitorOut.value] else [];
      var sent := if pass.telemetry.Some? then [pass.telemetry.value] else [];
      if pass.halted then
        Trace(pass.state, played, sent, true)
      else
        assert ValidEvents(events[1..], |s.audioBuffer|) by {
          forall i | 0 <= i < |events| - 1 && events[1..][i].Block?
            ensures ValidRead(events[1..][i].read, |s.audioBuffer|)
          {
            assert events[1..][i] == events[i + 1];
          }
        }
        var rest := Drive(pass.state, c, events[1..]);
        Trace(rest.state, played + rest.played, sent + rest.sent, rest.halted)
  }

  /** The blocks of a run with no request in between, as events. */
  function Blocks(blocks: seq<ReadResult>, faults: seq<IoFaults>): (events: seq<Event>)
    requires |faults| == |blocks|
    ensures |events| == |blocks|
    ensures forall i :: 0 <= i < |blocks| ==> events[i] == Block(blocks[i], faults[i])
  {
    seq(|blocks|, i requires 0 <= i < |blocks| => Block(blocks[i], faults[i]))
  }

  /** With no request in between, a run is the session of its blocks. */
  lemma {:induction false} DriveBlocks(s: State, c: Config, blocks: seq<ReadResult>, faults: seq<IoFaults>)
    requires |faults| == |blocks| && ValidBlocks(blocks, |s.audioBuffer|)
    ensures ValidEvents(Blocks(blocks, faults), |s.audioBuffer|)
    ensures Drive(s, c, Blocks(blocks, faults)) == Session(s, c, blocks, faults)
    decreases |blocks|
  {
    var events := Blocks(blocks, faults);
    if |blocks| > 0 {
      var pass := Iteration(s, c, blocks[0], faults[0]);
      if !pass.halted {
        CleanTail(blocks, faults, |s.audioBuffer|);
        assert events[1..] == Blocks(blocks[1..], faults[1..]);
        DriveBlocks(pass.state, c, blocks[1..], faults[1..]);
      }
    }
  }

  /** A run of `first` then `second` that does not end within `first` goes on
      from where `first` left off. */
  lemma {:induction false} DriveAppend(s: State, c: Config, first: seq<Event>, second: seq<Event>)
    requires ValidEvents(first + second, |s.audioBuffer|)
    ensures ValidEvents(first, |s.audioBuffer|) && ValidEvents(second, |s.audioBuffer|)
    ensures var t := Drive(s, c, first);
            !t.halted ==>
              && Drive(s, c, first + second).state == Drive(t.state, c, second).state
              && Drive(s, c, first + second).halted == Drive(t.state, c, second).halted
    decreases |first|
  {
    var n := |s.audioBuffer|;
    forall i | 0 <= i < |first| && first[i].Block? ensures ValidRead(first[i].read, n) {
      assert (first + second)[i] == first[i];
    }
    forall i | 0 <= i < |second| && second[i].Block? ensures ValidRead(second[i].read, n) {
      assert (first + second)[|first| + i] == second[i];
    }
    if |first| == 0 {
      assert first + second == second;
    } else {
      assert (first + second)[0] == first[0];
      assert (first + second)[1..] == first[1..] + second;
      var pass := OnEvent(s, c, first[0]);
      if !pass.halted {
        DriveAppend(pass.state, c, first[1..], second);
      }
    }
  }

  /** The state the loop of `run()` starts from: no output file, a zero count
      and a freshly allocated, zero-filled buffer of `bufferSize` bytes. */
  function StartOfRun(s: State, bufferSize: nat): (r: State)
    ensures r.outputFile.None? && r.total == 0
    ensures |r.audioBuffer| == bufferSize && forall i :: 0 <= i < bufferSize ==> r.audioBuffer[i] == 0
    ensures r.(outputFile := s.outputFile, total := s.total, audioBuffer := s.audioBuffer) == s
  {
    s.(outputFile := None, total := 0, audioBuffer := Zeros(bufferSize))
  }

  /** A thread that is not yet recording starts its loop in a state that
      satisfies the recording invariant. */
  lemma StartOfRunInv(s: State, h: seq<byte>, bufferSize: nat)
    requires Inv(s, h) && !s.recording
    ensures Inv(StartOfRun(s, bufferSize), h)
  {
  }

  /** Every event keeps the recording invariant. */
  lemma OnEventInv(s: State, c: Config, h: seq<byte>, e: Event)
    requires c.header == Success(h) && |h| == HEADER_SIZE && Inv(s, h)
    requires e.Block? ==> ValidRead(e.read, |s.audioBuffer|)
    ensures Inv(OnEvent(s, c, e).state, h)
  {
    match e
    case Block(read, faults) => IterationInv(s, c, h, read, faults);
    case StartRequest(folderPath, fileName) => RequestsKeepInv(s, h, folderPath, fileName, false);
    case FinishRequest => RequestsKeepInv(s, h, "", "", false);
    case MonitoringRequest(monitoring) => RequestsKeepInv(s, h, "", "", monitoring);
  }

  /** A whole run, with any requests and faults, keeps the recording invariant. */
  lemma {:induction false} DriveInv(s: State, c: Config, h: seq<byte>, events: seq<Event>)
    requires c.header == Success(h) && |h| == HEADER_SIZE && Inv(s, h) && ValidEvents(events, |s.audioBuffer|)
    ensures Inv(Drive(s, c, events).state, h)
    decreases |events|
  {
    if |events| > 0 {
      var pass := OnEvent(s, c, events[0]);
      OnEventInv(s, c, h, events[0]);
      if !pass.halted {
        DriveAppend(pass.state, c, [], events[1..]);
        DriveInv(pass.state, c, h, events[1..]);
      }
    }
  }

  /** A session of passes keeps the recording invariant. */
  lemma {:induction false} SessionInv(s: State, c: Config, h: seq<byte>, blocks: seq<ReadResult>, faults: seq<IoFaults>)
    requires c.header == Success(h) && |h| == HEADER_SIZE && Inv(s, h)
    requires |faults| == |blocks| && ValidBlocks(blocks, |s.audioBuffer|)
    ensures Inv(Session(s, c, blocks, faults).state, h)
    decreases |blocks|
  {
    if |blocks| > 0 {
      var pass := Iteration(s, c, blocks[0], faults[0]);
      IterationInv(s, c, h, blocks[0], faults[0]);
      if !pass.halted {
        SessionUnfold(s, c, blocks, faults);
        SessionInv(pass.state, c, h, blocks[1..], faults[1..]);
      }
    }
  }

  /** A trace extended by one more event. */
  function Extend(t: Trace, pass: Pass): Trace
  {
    Trace(pass.state,
          t.played + (if pass.monitorOut.Some? then [pass.monitorOut.value] else []),
          t.sent + (if pass.telemetry.Some? then [pass.telemetry.value] else []),
          pass.halted)
  }

  /** The whole trace of a run that has produced `t` so far and then meets
      `events`: nothing more once it has halted. */
  function Resume(t: Trace, c: Config, events: seq<Event>): Trace
    requires ValidEvents(events, |t.state.audioBuffer|)
  {
    if t.halted then t
    else
      var rest := Drive(t.state, c, events);
      Trace(rest.state, t.played + rest.played, t.sent + rest.sent, rest.halted)
  }

  /** Before the first event, the rest of the run is the whole run. */
  lemma ResumeStart(s: State, c: Config, events: seq<Event>)
    requires ValidEvents(events, |s.audioBuffer|)
    ensures Resume(Trace(s, [], [], false), c, events) == Drive(s, c, events)
  {
    var rest := Drive(s, c, events);
    assert [] + rest.played == rest.played;
    assert [] + rest.sent == rest.sent;
  }

  /** Taking one event out of the rest of a run and into the trace so far
      leaves the whole trace as it was. */
  lemma ResumeStep(t: Trace, c: Config, events: seq<Event>)
    requires !t.halted && |events| > 0 && ValidEvents(events, |t.state.audioBuffer|)
    ensures events[0].Block? ==> ValidRead(events[0].read, |t.state.audioBuffer|)
    ensures ValidEvents(events[1..], |t.state.audioBuffer|)
    ensures var next := Extend(t, OnEvent(t.state, c, events[0]));
            |next.state.audioBuffer| == |t.state.audioBuffer|
            && Resume(t, c, events) == Resume(next, c, events[1..])
  {
    DriveAppend(t.state, c, [events[0]], events[1..]);
    assert [events[0]] + events[1..] == events;
    var pass := OnEvent(t.state, c, events[0]);
    var played := if pass.monitorOut.Some? then [pass.monitorOut.value] else [];
    var sent := if pass.telemetry.Some? then [pass.telemetry.value] else [];
    if !pass.halted {
      var rest := Drive(pass.state, c, events[1..]);
      ConcatAssoc(t.played, played, rest.played);
      ConcatAssoc(t.sent, sent, rest.sent);
    }
  }

  /** With no events left, the trace so far is the whole trace. */
  lemma ResumeEnd(t: Trace, c: Config)
    ensures Resume(t, c, []) == t
  {
    assert t.played + [] == t.played;
    assert t.sent + [] == t.sent;
  }

  /** The blocks and faults after the first keep the properties of the whole. */
  lemma CleanTail(blocks: seq<ReadResult>, faults: seq<IoFaults>, bufferSize: nat)
    requires |blocks| > 0 && |faults| > 0 && ValidBlocks(blocks, bufferSize)
    ensures ValidBlocks(blocks[1..], bufferSize)
    ensures AllRead(blocks) ==> AllRead(blocks[1..])
    ensures NoFaultsIn(faults) ==> NoFaultsIn(faults[1..])
  {
    forall i | 0 <= i < |blocks| - 1
      ensures ValidRead(blocks[1..][i], bufferSize) && (AllRead(blocks) ==> blocks[1..][i].Read?)
    {
      assert blocks[1..][i] == blocks[i + 1];
    }
    forall i | 0 <= i < |faults| - 1 ensures NoFaultsIn(faults) ==> faults[1..][i] == NoFaults {
      assert faults[1..][i] == faults[i + 1];
    }
  }

  /** A run that does not end in its first pass continues from that pass's state. */
  lemma SessionUnfold(s: State, c: Config, blocks: seq<ReadResult>, faults: seq<IoFaults>)
    requires |blocks| > 0 && |faults| == |blocks| && ValidBlocks(blocks, |s.audioBuffer|)
    requires !Iteration(s, c, blocks[0], faults[0]).halted
    ensures var next := Iteration(s, c, blocks[0], faults[0]).state;
            ValidBlocks(blocks[1..], |next.audioBuffer|)
            && Session(s, c, blocks, faults).state == Session(next, c, blocks[1..], faults[1..]).state
            && Session(s, c, blocks, faults).halted == Session(next, c, blocks[1..], faults[1..]).halted
  {
    CleanTail(blocks, faults, |s.audioBuffer|);
  }

  /** A pass while recording, with no request pending and no fault, appends
      the block whole when it fits under the ceiling. */
  lemma PassAppends(s: State, c: Config, block: ReadResult, faults: IoFaults)
    requires s.recording && !s.startRecording && !s.finishRecording && faults == NoFaults
    requires block.Read? && |block.bytes| <= |s.audioBuffer| && s.total + |block.bytes| <= MAX_WAV_DATA
    ensures var r := Iteration(s, c, block, faults);
            && !r.halted && r.state.recording && !r.state.startRecording && !r.state.finishRecording
            && r.state.outputFile == s.outputFile
            && r.state.wav == s.wav + block.bytes && r.state.total == s.total + |block.bytes|
  {
    var filled := ReadInto(s, block);
    assert filled.audioBuffer[..|block.bytes|] == block.bytes;
  }

  /** Passes while recording with no request and no fault append every block
      read, in order, and count every byte. */
  lemma {:induction false} SessionAppends(s: State, c: Config, blocks: seq<ReadResult>, faults: seq<IoFaults>)
    requires s.recording && !s.startRecording && !s.finishRecording
    requires |faults| == |blocks| && NoFaultsIn(faults) && AllRead(blocks) && ValidBlocks(blocks, |s.audioBuffer|)
    requires s.total + |Concat(blocks)| <= MAX_WAV_DATA
    ensures var t := Session(s, c, blocks, faults);
            && !t.halted && t.state.recording && !t.state.startRecording && !t.state.finishRecording
            && t.state.outputFile == s.outputFile
            && t.state.wav == s.wav + Concat(blocks)
            && t.state.total == s.total + |Concat(blocks)|
    decreases |blocks|
  {
    if |blocks| == 0 {
      assert s.wav + [] == s.wav;
    } else {
      assert ValidRead(blocks[0], |s.audioBuffer|) && faults[0] == NoFaults && blocks[0].Read?;
      ConcatFirst(blocks);
      PassAppends(s, c, blocks[0], faults[0]);
      var next := Iteration(s, c, blocks[0], faults[0]).state;
      CleanTail(blocks, faults, |s.audioBuffer|);
      SessionAppends(next, c, blocks[1..], faults[1..]);
      SessionUnfold(s, c, blocks, faults);
      ConcatAssoc(s.wav, blocks[0].bytes, Concat(blocks[1..]));
    }
  }

  /** Start, record, finish: a start request, passes that read data with no
      fault, then a finish request leave a file holding the configured header
      followed by every byte read, whose patched header declares that many
      data bytes (and ChunkSize 36 more, modulo 2^32). */
  lemma RecordingRoundTrip(s: State, c: Config, h: seq<byte>, blocks: seq<ReadResult>, faults: seq<IoFaults>,
                           last: ReadResult)
    requires c.header == Success(h) && |h| == HEADER_SIZE && ParseHeader(h).Some?
    requires s.startRecording && !s.finishRecording && s.total == 0
    requires |blocks| > 0 && |faults| == |blocks| && NoFaultsIn(faults) && AllRead(blocks)
    requires ValidBlocks(blocks, |s.audioBuffer|) && ValidRead(last, |s.audioBuffer|)
    requires |Concat(blocks)| <= MAX_WAV_DATA
    ensures var t := Session(s, c, blocks, faults);
            var u := Iteration(RequestFinish(t.state), c, last, NoFaults);
            var data := Concat(blocks);
            && !t.halted && !u.halted && !u.state.recording && u.state.total == 0
            && u.state.outputFile == Some(FileRef(s.folderPath, s.fileName))
            && u.state.wav == UpdateWavHeader(h + data)
            && u.state.wav[HEADER_SIZE..] == data
            && ParseHeader(u.state.wav)
               == Some(ParseHeader(h).value.(chunkSize := (|data| + 36) % TWO_POW_32, subchunk2Size := |data|))
  {
    RecordedSession(s, c, h, blocks, faults);
    var t := Session(s, c, blocks, faults);
    FinishPatches(RequestFinish(t.state), c, h, Concat(blocks), last);
  }

  /** The host's view of a recording: a start request for a file, blocks read
      with no fault, a finish request and one more pass leave that file
      holding the configured header, patched, followed by every byte read. */
  lemma HostRecordingRoundTrip(s: State, c: Config, h: seq<byte>, folderPath: string, fileName: string,
                               blocks: seq<ReadResult>, faults: seq<IoFaults>, last: ReadResult)
    requires c.header == Success(h) && |h| == HEADER_SIZE && ParseHeader(h).Some?
    requires !s.finishRecording && s.total == 0
    requires |blocks| > 0 && |faults| == |blocks| && NoFaultsIn(faults) && AllRead(blocks)
    requires ValidBlocks(blocks, |s.audioBuffer|) && ValidRead(last, |s.audioBuffer|)
    requires |Concat(blocks)| <= MAX_WAV_DATA
    ensures var events := [StartRequest(folderPath, fileName)] + Blocks(blocks, faults)
                          + [FinishRequest, Block(last, NoFaults)];
            ValidEvents(events, |s.audioBuffer|)
            && var t := Drive(s, c, events);
               var data := Concat(blocks);
               && !t.halted && !t.state.recording && t.state.total == 0
               && t.state.outputFile == Some(FileRef(folderPath, fileName))
               && t.state.wav == UpdateWavHeader(h + data)
               && ParseHeader(t.state.wav)
                  == Some(ParseHeader(h).value.(chunkSize := (|data| + 36) % TWO_POW_32, subchunk2Size := |data|))
  {
    var started := RequestStart(s, folderPath, fileName);
    RecordingRoundTrip(started, c, h, blocks, faults, last);
    StartSessionFinish(s, c, folderPath, fileName, blocks, faults, last);
  }

  /** A start request, blocks that do not halt, a finish request and one more
      block drive the state as the session of those blocks followed by the
      pass that consumes the finish. */
  lemma StartSessionFinish(s: State, c: Config, folderPath: string, fileName: string,
                           blocks: seq<ReadResult>, faults: seq<IoFaults>, last: ReadResult)
    requires |faults| == |blocks| && ValidBlocks(blocks, |s.audioBuffer|) && ValidRead(last, |s.audioBuffer|)
    requires !Session(RequestStart(s, folderPath, fileName), c, blocks, faults).halted
    ensures var events := [StartRequest(folderPath, fileName)] + Blocks(blocks, faults)
                          + [FinishRequest, Block(last, NoFaults)];
            ValidEvents(events, |s.audioBuffer|)
            && var t := Session(RequestStart(s, folderPath, fileName), c, blocks, faults);
               var u := Iteration(RequestFinish(t.state), c, last, NoFaults);
               Drive(s, c, events).state == u.state && Drive(s, c, events).halted == u.halted
  {
    var started := RequestStart(s, folderPath, fileName);
    var tail := [FinishRequest, Block(last, NoFaults)];
    var middle := Blocks(blocks, faults) + tail;
    DriveBlocks(started, c, blocks, faults);
    FinishThenPass(Session(started, c, blocks, faults).state, c, last);
    ConcatAssoc([StartRequest(folderPath, fileName)], Blocks(blocks, faults), tail);
    ValidEventsAppend(Blocks(blocks, faults), tail, |s.audioBuffer|);
    ValidEventsAppend([StartRequest(folderPath, fileName)], middle, |s.audioBuffer|);
    DriveAppend(s, c, [StartRequest(folderPath, fileName)], middle);
    DriveAppend(started, c, Blocks(blocks, faults), tail);
  }

  /** Two sequences of valid events make one. */
  lemma ValidEventsAppend(first: seq<Event>, second: seq<Event>, bufferSize: nat)
    requires ValidEvents(first, bufferSize) && ValidEvents(second, bufferSize)
    ensures ValidEvents(first + second, bufferSize)
  {
    forall i | 0 <= i < |first + second| && (first + second)[i].Block?
      ensures ValidRead((first + second)[i].read, bufferSize)
    {
      if i >= |first| {
        assert (first + second)[i] == second[i - |first|];
      }
    }
  }

  /** The passes of a recording that starts with the first block. */
  lemma RecordedSession(s: State, c: Config, h: seq<byte>, blocks: seq<ReadResult>, faults: seq<IoFaults>)
    requires c.header == Success(h)
    requires s.startRecording && !s.finishRecording && s.total == 0
    requires |blocks| > 0 && |faults| == |blocks| && NoFaultsIn(faults) && AllRead(blocks)
    requires ValidBlocks(blocks, |s.audioBuffer|)
    requires |Concat(blocks)| <= MAX_WAV_DATA
    ensures var t := Session(s, c, blocks, faults);
            && !t.halted && !t.state.startRecording && t.state.outputFile == Some(FileRef(s.folderPath, s.fileName))
            && t.state.wav == h + Concat(blocks)
  {
    var bytes := blocks[0].bytes;
    ConcatFirst(blocks);
    FirstPassStarts(s, c, h, blocks, faults);
    var first := Iteration(s, c, blocks[0], faults[0]);
    CleanTail(blocks, faults, |s.audioBuffer|);
    SessionAppends(first.state, c, blocks[1..], faults[1..]);
    SessionUnfold(s, c, blocks, faults);
    ConcatAssoc(h, bytes, Concat(blocks[1..]));
  }

  lemma ConcatFirst(blocks: seq<ReadResult>)
    requires |blocks| > 0 && blocks[0].Read?
    ensures Concat(blocks) == blocks[0].bytes + Concat(blocks[1..])
  {
  }

  lemma ConcatAssoc<T>(a: seq<T>, b: seq<T>, c: seq<T>)
    ensures (a + b) + c == a + (b + c)
  {
  }

  /** The first pass of a recording opens the file, writes the header and
      appends the first block. */
  lemma FirstPassStarts(s: State, c: Config, h: seq<byte>, blocks: seq<ReadResult>, faults: seq<IoFaults>)
    requires c.header == Success(h)
    requires s.startRecording && !s.finishRecording && s.total == 0
    requires |blocks| > 0 && |faults| == |blocks| && faults[0] == NoFaults && blocks[0].Read?
    requires ValidRead(blocks[0], |s.audioBuffer|) && |blocks[0].bytes| <= MAX_WAV_DATA
    ensures var first := Iteration(s, c, blocks[0], faults[0]);
            && !first.halted && first.state.recording && !first.state.startRecording
            && !first.state.finishRecording && first.state.outputFile == Some(FileRef(s.folderPath, s.fileName))
            && first.state.wav == h + blocks[0].bytes && first.state.total == |blocks[0].bytes|
  {
    RestartKeepsCount(s, c, h, blocks[0].bytes);
    StartConsumed(s, c, blocks[0], faults[0]);
  }

  /** A pass that consumes a finish keeps the output file it names. */
  lemma FinishKeepsFile(s: State, c: Config, read: ReadResult)
    requires s.finishRecording && !s.startRecording && ValidRead(read, |s.audioBuffer|)
    ensures Iteration(s, c, read, NoFaults).state.outputFile == s.outputFile
  {
    var filled := ReadInto(s, read);
    var finished := HandleFinish(filled, false);
    assert !finished.state.recording;
  }

  /** A finish request followed by one block is the pass that consumes it. */
  lemma FinishThenPass(s: State, c: Config, last: ReadResult)
    requires ValidRead(last, |s.audioBuffer|)
    ensures ValidEvents([FinishRequest, Block(last, NoFaults)], |s.audioBuffer|)
    ensures var u := Iteration(RequestFinish(s), c, last, NoFaults);
            var t := Drive(s, c, [FinishRequest, Block(last, NoFaults)]);
            t.state == u.state && t.halted == u.halted
  {
    DriveOne(s, c, FinishRequest);
    DriveOne(RequestFinish(s), c, Block(last, NoFaults));
    DriveAppend(s, c, [FinishRequest], [Block(last, NoFaults)]);
  }

  /** A single event drives the state exactly as its pass does. */
  lemma DriveOne(s: State, c: Config, e: Event)
    requires e.Block? ==> ValidRead(e.read, |s.audioBuffer|)
    ensures ValidEvents([e], |s.audioBuffer|)
    ensures Drive(s, c, [e]).state == OnEvent(s, c, e).state
    ensures Drive(s, c, [e]).halted == OnEvent(s, c, e).halted
  {
    assert [e][0] == e && [e][1..] == [];
  }

  /** A finish consumed when the file holds a header and data. */
  lemma FinishPatches(s: State, c: Config, h: seq<byte>, data: seq<byte>, read: ReadResult)
    requires |h| == HEADER_SIZE && ParseHeader(h).Some? && |data| <= MAX_WAV_DATA
    requires s.finishRecording && !s.startRecording && s.outputFile.Some? && s.wav == h + data
    requires ValidRead(read, |s.audioBuffer|)
    ensures var u := Iteration(s, c, read, NoFaults);
            && !u.halted && !u.state.recording && u.state.total == 0 && u.state.outputFile == s.outputFile
            && u.state.wav == UpdateWavHeader(h + data)
            && u.state.wav[HEADER_SIZE..] == data
            && ParseHeader(u.state.wav)
               == Some(ParseHeader(h).value.(chunkSize := (|data| + 36) % TWO_POW_32, subchunk2Size := |data|))
  {
    FinishPrecedesAppend(s, c, read, NoFaults);
    FinishKeepsFile(s, c, read);
    ParseHeaderIgnoresData(h, data);
    PatchedHeader(h + data);
    assert (h + data)[HEADER_SIZE..] == data;
    DivModUnique(|data|, TWO_POW_32, 0, |data|);
  }

  /** A recording stopped by the ceiling: a file opened when the count was
      zero holds 2^32 data bytes once the ceiling is hit, one more than a
      32-bit size field can hold, so the next pass patches its header to
      declare no data at all and a ChunkSize of 36. */
  lemma CeilingOvershoot(s: State, c: Config, h: seq<byte>, d: seq<byte>, bytes: seq<byte>, last: ReadResult)
    requires c.header == Success(h) && |h| == HEADER_SIZE && ParseHeader(h).Some? && Inv(s, h)
    requires s.recording && !s.startRecording && !s.finishRecording
    requires s.wav == h + d && |d| == s.total
    requires |bytes| <= |s.audioBuffer| && s.total + |bytes| > MAX_WAV_DATA
    requires ValidRead(last, |s.audioBuffer|)
    ensures var t := Iteration(s, c, Read(bytes), NoFaults);
            var u := Iteration(t.state, c, last, NoFaults);
            && !t.halted && t.state.finishRecording && !t.state.recording
            && |t.state.wav| == HEADER_SIZE + MAX_WAV_DATA + 1
            && !u.halted && |u.state.wav| == |t.state.wav|
            && ParseHeader(u.state.wav) == Some(ParseHeader(h).value.(chunkSize := 36, subchunk2Size := 0))
  {
    CeilingAppend(s, c, h, bytes);
    var t := Iteration(s, c, Read(bytes), NoFaults);
    StartConsumed(s, c, Read(bytes), NoFaults);
    var written := t.state.total - s.total;
    assert t.state.wav == h + (d + bytes[..written]);
    FinishPrecedesAppend(t.state, c, last, NoFaults);
    ParseHeaderIgnoresData(h, d + bytes[..written]);
    PatchedHeader(t.state.wav);
    DivModUnique(MAX_WAV_DATA + 1 + 36, TWO_POW_32, 1, 36);
    DivModUnique(MAX_WAV_DATA + 1, TWO_POW_32, 1, 0);
  }
}
