/**
 * read_cdc.c: the command-line scanner `parse_arg` and the USB CDC frame
 * assembler in `main` (lines 138-211). Frames are 1253 32-bit words:
 * a start-of-frame word, a millisecond timestamp, 1250 samples and an
 * end-of-frame word. Each completed frame becomes 1250 CSV rows
 * `(microseconds, sample)` spaced 80 us apart.
 *
 * `read()` is replaced by the chunk of whole words it returned, never more
 * than the space left in the buffer; `fprintf` to the CSV file and to
 * stderr becomes the `rows` and `warnings` sequences.
 */
module ReadCdc {
  import opened Wrappers

  // ------------------------------------------------------------ parse_arg

  const DEFAULT_TTY: string := "/dev/ttyACM0"
  const DEFAULT_CSV: string := "vibration_data.csv"

  /** `struct my_args_t`: the serial device and the CSV output path. */
  datatype Args = Args(ttyDev: string, csvFile: string)

  const Defaults: Args := Args(DEFAULT_TTY, DEFAULT_CSV)

  /**
   * The scan of `argv[1..]` from `acc`: `-p` and `-o` take the next token
   * as their value whatever it looks like, any other token is skipped. A
   * trailing `-o` ends the scan; a trailing `-p` makes the `else` branch
   * compare `argv[argc]`, a null pointer: `None` stands for that undefined
   * behaviour.
   */
  function Scan(tokens: seq<string>, acc: Args): Option<Args>
    decreases |tokens|
  {
    if |tokens| == 0 then Some(acc)
    else if tokens[0] == "-p" then
      if |tokens| >= 2 then Scan(tokens[2..], acc.(ttyDev := tokens[1])) else None
    else if tokens[0] == "-o" then
      if |tokens| >= 2 then Scan(tokens[2..], acc.(csvFile := tokens[1])) else Some(acc)
    else Scan(tokens[1..], acc)
  }

  /** `parse_arg` on the arguments after the program name. */
  function ParseArgs(args: seq<string>): Option<Args>
  {
    Scan(args, Defaults)
  }

  /** `parse_arg`'s loop over `argv`, with `args[i]` standing for `argv[i + 1]`. */
  method ParseArg(args: seq<string>) returns (r: Option<Args>)
    ensures r == ParseArgs(args)
  {
    var ttyDev, csvFile := DEFAULT_TTY, DEFAULT_CSV;
    var i := 0;
    while i < |args|
      invariant 0 <= i <= |args| + 1
      invariant i <= |args| ==> Scan(args[i..], Args(ttyDev, csvFile)) == ParseArgs(args)
      invariant i == |args| + 1 ==> Some(Args(ttyDev, csvFile)) == ParseArgs(args)
      decreases |args| + 1 - i
    {
      if args[i] == "-p" {
        i := i + 1;
        if i < |args| {
          ttyDev := args[i];
        } else {
          // `strcmp(argv[argc], "-o")`: undefined behaviour
          return None;
        }
      } else if args[i] == "-o" {
        i := i + 1;
        if i < |args| {
          csvFile := args[i];
        }
      }
      i := i + 1;
    }
    r := Some(Args(ttyDev, csvFile));
  }

  /** A flag with its value, as a caller writes it. */
  datatype Setting = Port(dev: string) | Output(file: string)

  /** The field a setting assigns. */
  function Apply(s: Setting, acc: Args): Args
  {
    match s
    case Port(d) => acc.(ttyDev := d)
    case Output(f) => acc.(csvFile := f)
  }

  /** The tokens `-p dev` / `-o file` for each setting, in order. */
  function Tokens(settings: seq<Setting>): (t: seq<string>)
    ensures |t| == 2 * |settings|
  {
    if |settings| == 0 then []
    else (match settings[0] case Port(d) => ["-p", d] case Output(f) => ["-o", f]) + Tokens(settings[1..])
  }

  /** The value of the last setting of each kind, or the default when there is none. */
  function LastPort(settings: seq<Setting>, default: string): string
    decreases |settings|
  {
    if |settings| == 0 then default
    else if settings[|settings| - 1].Port? then settings[|settings| - 1].dev
    else LastPort(settings[..|settings| - 1], default)
  }

  function LastOutput(settings: seq<Setting>, default: string): string
    decreases |settings|
  {
    if |settings| == 0 then default
    else if settings[|settings| - 1].Output? then settings[|settings| - 1].file
    else LastOutput(settings[..|settings| - 1], default)
  }

  /** Flag-value pairs are consumed pair by pair: the scan never looks into a value. */
  lemma {:induction false} ScanSettings(settings: seq<Setting>, rest: seq<string>, acc: Args)
    ensures Scan(Tokens(settings) + rest, acc)
            == Scan(rest, Args(LastPort(settings, acc.ttyDev), LastOutput(settings, acc.csvFile)))
    decreases |settings|
  {
    if |settings| > 0 {
      var s := settings[0];
      var next := Apply(s, acc);
      var pair := [if s.Port? then "-p" else "-o", if s.Port? then s.dev else s.file];
      var tail := Tokens(settings[1..]) + rest;
      assert Tokens(settings) + rest == pair + tail;
      assert (pair + tail)[2..] == tail;
      assert Scan(pair + tail, acc) == Scan(tail, next);
      ScanSettings(settings[1..], rest, next);
      LastOfTail(settings, acc);
    } else {
      assert Tokens(settings) + rest == rest;
    }
  }

  /** Reading the last setting after the first one has been applied. */
  lemma {:induction false} LastOfTail(settings: seq<Setting>, acc: Args)
    requires |settings| > 0
    ensures var next := Apply(settings[0], acc);
            && LastPort(settings[1..], next.ttyDev) == LastPort(settings, acc.ttyDev)
            && LastOutput(settings[1..], next.csvFile) == LastOutput(settings, acc.csvFile)
    decreases |settings|
  {
    if |settings| > 1 {
      var front := settings[..|settings| - 1];
      assert settings[1..][..|settings| - 2] == front[1..];
      assert front[0] == settings[0];
      LastOfTail(front, acc);
    }
  }

  /**
   * Any sequence of `-p`/`-o` pairs parses: each field takes the value of
   * its last flag, later flags overriding earlier ones, and a field never
   * set keeps its default.
   */
  lemma LastFlagWins(settings: seq<Setting>)
    ensures ParseArgs(Tokens(settings)) == Some(Args(LastPort(settings, DEFAULT_TTY), LastOutput(settings, DEFAULT_CSV)))
  {
    ScanSettings(settings, [], Defaults);
    assert Tokens(settings) + [] == Tokens(settings);
  }

  /** A trailing `-p` without a value is undefined behaviour; a trailing `-o` is ignored. */
  lemma TrailingFlag(settings: seq<Setting>)
    ensures ParseArgs(Tokens(settings) + ["-p"]) == None
    ensures ParseArgs(Tokens(settings) + ["-o"])
            == Some(Args(LastPort(settings, DEFAULT_TTY), LastOutput(settings, DEFAULT_CSV)))
  {
    ScanSettings(settings, ["-p"], Defaults);
    ScanSettings(settings, ["-o"], Defaults);
  }

  /**
   * Tokens that are neither flag are skipped wherever they stand: a run of
   * them before the rest of the arguments changes nothing, and without
   * flags the defaults stand.
   */
  lemma {:induction false} NoFlagsKeepDefaults(args: seq<string>, rest: seq<string>, acc: Args)
    requires forall i :: 0 <= i < |args| ==> args[i] != "-p" && args[i] != "-o"
    ensures Scan(args + rest, acc) == Scan(rest, acc)
    ensures Scan(args, acc) == Some(acc)
    decreases |args|
  {
    if |args| > 0 {
      assert (args + rest)[0] == args[0];
      assert (args + rest)[1..] == args[1..] + rest;
      NoFlagsKeepDefaults(args[1..], rest, acc);
    } else {
      assert args + rest == rest;
    }
  }

  /** The token after a flag is its value even when it is itself a flag. */
  lemma FlagValueLooksLikeFlag()
    ensures ParseArgs(["-p", "-o"]) == Some(Args("-o", DEFAULT_CSV))
    ensures ParseArgs(["-o", "-p"]) == Some(Args(DEFAULT_TTY, "-p"))
  {
    assert ["-p", "-o"][2..] == [];
    assert ["-o", "-p"][2..] == [];
  }

  // ------------------------------------------------------- frame assembly

  /** An `int32_t` buffer word read as the unsigned 32-bit pattern it holds. */
  newtype Word = w: int | 0 <= w < 0x1_0000_0000

  /** `uint32_t` subtraction: the difference modulo 2^32. */
  function Minus(a: Word, b: Word): (d: Word)
    ensures a >= b ==> d as int == a as int - b as int
    ensures a < b ==> d as int == a as int - b as int + 0x1_0000_0000
  {
    ((a as int - b as int) % 0x1_0000_0000) as Word
  }

  const USB_SOF: Word := 0x5555_5555
  const USB_EOF: Word := 0xAAAA_AAAA
  const N_FRAME_DATA: nat := 1250
  /** SOF + timestamp + 1250 samples + EOF. */
  const FRAME_TOTAL_INTS: nat := 1253
  /** Milliseconds between frames. */
  const FRAME_INTERVAL: Word := 100
  /** Microseconds between samples, `(FRAME_INTERVAL * 1000) / (FRAME_TOTAL_INTS - 3)`. */
  const SAMPLE_SPACING: nat := (100 * 1000) / (FRAME_TOTAL_INTS - 3)

  datatype State = FindSof | FindEof

  /** One CSV line `timestamp,data`. */
  datatype Row = Row(micros: nat, value: int)

  /** What the assembler writes to stderr. */
  datatype Warning =
    | FrameLengthError                              // a frame overran the buffer; it is dropped
    | FrameSizeMismatch(timestamp: Word, ints: nat) // EOF came after `ints` words, not 1253
    | IntervalMismatch(interval: Word)              // consecutive frame timestamps not 100 ms apart

  /** The assembler's whole state: the buffer, the write offset `read_ptr - frame_buff`, and its output so far. */
  datatype Machine = Machine(buff: seq<Word>, offset: nat, state: State, lastTimestamp: Word,
                             rows: seq<Row>, warnings: seq<Warning>)

  /** `%d` of an `int32_t`: the two's complement reading of a word. */
  function Signed(w: Word): (v: int)
    ensures -0x8000_0000 <= v < 0x8000_0000
    ensures v >= 0 <==> w < 0x8000_0000
    ensures v % 0x1_0000_0000 == w as int
  {
    if w < 0x8000_0000 then w as int else w as int - 0x1_0000_0000
  }

  /** `calloc`ed buffer, offset 0, looking for SOF, no timestamp seen, nothing written. */
  function Start(): Machine
  {
    Machine(seq(FRAME_TOTAL_INTS, _ => 0), 0, FindSof, 0, [], [])
  }

  /**
   * The invariant the loop keeps: a 1253-word buffer, an offset that leaves
   * room for at least one more word, and offset 0 while looking for SOF.
   */
  predicate Ready(m: Machine)
  {
    |m.buff| == FRAME_TOTAL_INTS && m.offset < FRAME_TOTAL_INTS && (m.state == FindSof ==> m.offset == 0)
  }

  /** A chunk `read()` can return: at most the space left in the buffer. */
  predicate Fits(m: Machine, chunk: seq<Word>)
  {
    |m.buff| == FRAME_TOTAL_INTS && m.offset + |chunk| <= FRAME_TOTAL_INTS
  }

  /** `read(fd, read_ptr, ...)`: the chunk overwrites the buffer from `at`. */
  function Fill(buff: seq<Word>, at: nat, chunk: seq<Word>): (r: seq<Word>)
    requires at + |chunk| <= |buff|
    ensures |r| == |buff|
    ensures forall i :: 0 <= i < |r| ==> r[i] == if at <= i < at + |chunk| then chunk[i - at] else buff[i]
  {
    buff[..at] + chunk + buff[at + |chunk|..]
  }

  /**
   * Which reading of the loop: `AsWritten` is lines 145-211 as they stand,
   * `Corrected` has both defects of the overrun check (line 172) and the
   * row time (line 201) repaired.
   */
  datatype Build = Corrected | AsWritten

  /**
   * The word count without EOF at which a frame is dropped. As written the
   * check compares the index of the last word read, so it needs 1254
   * words, one more than the buffer holds.
   */
  function Limit(b: Build): (l: nat)
    ensures l == FRAME_TOTAL_INTS || l == FRAME_TOTAL_INTS + 1
  {
    match b
    case Corrected => FRAME_TOTAL_INTS
    case AsWritten => FRAME_TOTAL_INTS + 1
  }

  /** Row `i`'s time: the frame's millisecond stamp in microseconds plus `80 * i`. */
  function RowMicros(timestamp: Word, i: nat): nat
  {
    timestamp as nat * 1000 + SAMPLE_SPACING * i
  }

  /** Row time as line 201 computes it: `(uint32_t)frame_buff[1] * 1000` wraps modulo 2^32 before widening. */
  function RowMicrosAsWritten(timestamp: Word, i: nat): nat
  {
    (timestamp as nat * 1000) % 0x1_0000_0000 + SAMPLE_SPACING * i
  }

  /** Row `i`'s time under the reading `b`. */
  function RowTime(b: Build, timestamp: Word, i: nat): nat
  {
    match b
    case Corrected => RowMicros(timestamp, i)
    case AsWritten => RowMicrosAsWritten(timestamp, i)
  }

  /** The 1250 rows of a completed frame: samples `buff[2..1252)`. */
  function FrameRows(buff: seq<Word>, b: Build): (rows: seq<Row>)
    requires |buff| == FRAME_TOTAL_INTS
    ensures |rows| == N_FRAME_DATA
  {
    seq(N_FRAME_DATA, i requires 0 <= i < N_FRAME_DATA => Row(RowTime(b, buff[1], i), Signed(buff[i + 2])))
  }

  /** The warnings a completed frame of `count` words raises, size check first. */
  function FrameWarnings(timestamp: Word, count: nat, last: Word): seq<Warning>
  {
    (if count != FRAME_TOTAL_INTS then [FrameSizeMismatch(timestamp, count)] else [])
    + (if last != 0 && Minus(timestamp, last) != FRAME_INTERVAL then [IntervalMismatch(Minus(timestamp, last))] else [])
  }

  /** Lines 184-210: emit the frame that ended after `count` words and start over. */
  function Emit(m: Machine, count: nat, b: Build): Machine
    requires |m.buff| == FRAME_TOTAL_INTS
  {
    Machine(m.buff, 0, FindSof, m.buff[1], m.rows + FrameRows(m.buff, b),
            m.warnings + FrameWarnings(m.buff[1], count, m.lastTimestamp))
  }

  /**
   * One pass of the `while(1)` loop (lines 145-211) on the chunk a `read()`
   * returned, under the reading `b`: the frame is dropped with
   * `FrameLengthError` once the words read reach `Limit(b)` without EOF.
   */
  function StepWith(m: Machine, chunk: seq<Word>, b: Build): Machine
    requires Fits(m, chunk) && (m.state == FindSof ==> m.offset == 0)
  {
    if |chunk| == 0 then m
    else
      var buff := Fill(m.buff, m.offset, chunk);
      if m.state == FindSof && chunk[0] != USB_SOF then m.(buff := buff)
      else
        var count := m.offset + |chunk|;
        if buff[count - 1] != USB_EOF then
          if count >= Limit(b) then
            m.(buff := buff, offset := 0, state := FindSof, warnings := m.warnings + [FrameLengthError])
          else m.(buff := buff, offset := count, state := FindEof)
        else Emit(m.(buff := buff), count, b)
  }

  /** The pass with the overrun check corrected to fire when the buffer is full without EOF. */
  function Step(m: Machine, chunk: seq<Word>): Machine
    requires Ready(m) && Fits(m, chunk)
  {
    StepWith(m, chunk, Corrected)
  }

  /**
   * The pass as lines 145-211 write it: the overrun check fires only from
   * 1254 words on, and the row times wrap modulo 2^32.
   */
  function StepAsWritten(m: Machine, chunk: seq<Word>): Machine
    requires Fits(m, chunk) && (m.state == FindSof ==> m.offset == 0)
  {
    StepWith(m, chunk, AsWritten)
  }

  // ------------------------------------------------------------- properties

  /** `SAMPLE_SPACING` is 80 us, so 1250 samples span 99.92 ms of a 100 ms frame. */
  lemma SampleSpacing()
    ensures SAMPLE_SPACING == 80
    ensures SAMPLE_SPACING * (N_FRAME_DATA - 1) < FRAME_INTERVAL as nat * 1000
  {
  }

  /** Every pass keeps the invariant: the buffer always has room, so `read()` is never asked for 0 words. */
  lemma StepKeepsReady(m: Machine, chunk: seq<Word>)
    requires Ready(m) && Fits(m, chunk)
    ensures Ready(Step(m, chunk))
    ensures FRAME_TOTAL_INTS - Step(m, chunk).offset >= 1
  {
  }

  /** While looking for SOF a chunk not starting with SOF is dropped: nothing but the buffer changes. */
  lemma SofGate(m: Machine, chunk: seq<Word>)
    requires Ready(m) && Fits(m, chunk) && m.state == FindSof
    requires |chunk| > 0 && chunk[0] != USB_SOF
    ensures var m' := Step(m, chunk);
            m'.offset == 0 && m'.state == FindSof && m'.lastTimestamp == m.lastTimestamp
            && m'.rows == m.rows && m'.warnings == m.warnings
  {
  }

  /**
   * A frame is emitted exactly when the chunk is accepted (the assembler is
   * inside a frame or the chunk starts with SOF) and the chunk's LAST word
   * is EOF; an EOF word anywhere else in the chunk goes unnoticed.
   */
  lemma EmitsIffChunkEndsWithEof(m: Machine, chunk: seq<Word>)
    requires Ready(m) && Fits(m, chunk)
    ensures |Step(m, chunk).rows| > |m.rows|
            <==> |chunk| > 0 && (m.state == FindEof || chunk[0] == USB_SOF) && chunk[|chunk| - 1] == USB_EOF
  {
    if |chunk| > 0 {
      assert Fill(m.buff, m.offset, chunk)[m.offset + |chunk| - 1] == chunk[|chunk| - 1];
    }
  }

  /** An accepted chunk without EOF that leaves room advances the offset by its length. */
  lemma NonEofChunkAdvances(m: Machine, chunk: seq<Word>)
    requires Ready(m) && Fits(m, chunk)
    requires |chunk| > 0 && (m.state == FindEof || chunk[0] == USB_SOF) && chunk[|chunk| - 1] != USB_EOF
    requires m.offset + |chunk| < FRAME_TOTAL_INTS
    ensures var m' := Step(m, chunk);
            m'.offset == m.offset + |chunk| && m'.state == FindEof
            && m'.rows == m.rows && m'.warnings == m.warnings
            && m'.buff[m.offset..m.offset + |chunk|] == chunk
  {
    var buff := Fill(m.buff, m.offset, chunk);
    assert buff[m.offset + |chunk| - 1] == chunk[|chunk| - 1];
    assert buff[m.offset..m.offset + |chunk|] == chunk;
  }

  /**
   * An accepted chunk ending in EOF emits 1250 rows, row `i` holding sample
   * word `i + 2` as a signed value at `timestamp * 1000 + 80 * i` us, even
   * when the frame had the wrong size; the size and interval warnings fire
   * exactly on their conditions; the assembler starts over.
   */
  lemma EofChunkEmitsFrame(m: Machine, chunk: seq<Word>)
    requires Ready(m) && Fits(m, chunk)
    requires |chunk| > 0 && (m.state == FindEof || chunk[0] == USB_SOF) && chunk[|chunk| - 1] == USB_EOF
    ensures var m' := Step(m, chunk);
            var ts := m'.buff[1];
            var count := m.offset + |chunk|;
            && m'.buff == Fill(m.buff, m.offset, chunk)
            && m'.offset == 0 && m'.state == FindSof && m'.lastTimestamp == ts
            && |m'.rows| == |m.rows| + N_FRAME_DATA && m'.rows[..|m.rows|] == m.rows
            && (forall i :: 0 <= i < N_FRAME_DATA ==>
                  m'.rows[|m.rows| + i] == Row(ts as nat * 1000 + 80 * i, Signed(m'.buff[i + 2])))
            && (FrameSizeMismatch(ts, count) in m'.warnings[|m.warnings|..] <==> count != FRAME_TOTAL_INTS)
            && (IntervalMismatch(Minus(ts, m.lastTimestamp)) in m'.warnings[|m.warnings|..]
                <==> m.lastTimestamp != 0 && Minus(ts, m.lastTimestamp) != FRAME_INTERVAL)
            && FrameLengthError !in m'.warnings[|m.warnings|..]
  {
    StepEmits(m, chunk);
    EmitFacts(m.(buff := Fill(m.buff, m.offset, chunk)), m.offset + |chunk|, Corrected);
  }

  /** An accepted chunk ending in EOF makes the pass an emit of the filled buffer. */
  lemma StepEmits(m: Machine, chunk: seq<Word>)
    requires Ready(m) && Fits(m, chunk)
    requires |chunk| > 0 && (m.state == FindEof || chunk[0] == USB_SOF) && chunk[|chunk| - 1] == USB_EOF
    ensures Step(m, chunk) == Emit(m.(buff := Fill(m.buff, m.offset, chunk)), m.offset + |chunk|, Corrected)
  {
    assert Fill(m.buff, m.offset, chunk)[m.offset + |chunk| - 1] == chunk[|chunk| - 1];
  }

  /** What `Emit` appends and resets under either reading, for `EofChunkEmitsFrame`. */
  lemma EmitFacts(m: Machine, count: nat, b: Build)
    requires |m.buff| == FRAME_TOTAL_INTS
    ensures var m' := Emit(m, count, b);
            var ts := m.buff[1];
            && m'.buff == m.buff
            && m'.offset == 0 && m'.state == FindSof && m'.lastTimestamp == ts
            && |m'.rows| == |m.rows| + N_FRAME_DATA && m'.rows[..|m.rows|] == m.rows
            && (forall i :: 0 <= i < N_FRAME_DATA ==>
                  m'.rows[|m.rows| + i] == Row(RowTime(b, ts, i), Signed(m.buff[i + 2])))
            && (FrameSizeMismatch(ts, count) in m'.warnings[|m.warnings|..] <==> count != FRAME_TOTAL_INTS)
            && (IntervalMismatch(Minus(ts, m.lastTimestamp)) in m'.warnings[|m.warnings|..]
                <==> m.lastTimestamp != 0 && Minus(ts, m.lastTimestamp) != FRAME_INTERVAL)
            && FrameLengthError !in m'.warnings[|m.warnings|..]
  {
    var m' := Emit(m, count, b);
    assert m'.rows[..|m.rows|] == m.rows;
    assert m'.warnings[|m.warnings|..] == FrameWarnings(m.buff[1], count, m.lastTimestamp);
  }

  /** Consecutive rows of a frame are 80 us apart, and 100 ms frames do not overlap in time. */
  lemma FrameRowsInOrder(ts: Word, next: Word)
    requires next as nat == ts as nat + FRAME_INTERVAL as nat
    ensures forall i :: 0 <= i < N_FRAME_DATA - 1 ==> RowMicros(ts, i + 1) == RowMicros(ts, i) + 80
    ensures RowMicros(ts, N_FRAME_DATA - 1) < RowMicros(next, 0)
  {
  }

  // ------------------------------------------------- findings, as written

  /** With the check as written the reset never fires: the last word's index is at most 1252. */
  lemma OverrunResetUnreachable(m: Machine, chunk: seq<Word>)
    requires Fits(m, chunk) && (m.state == FindSof ==> m.offset == 0)
    ensures FrameLengthError !in StepAsWritten(m, chunk).warnings[|m.warnings|..]
    ensures StepAsWritten(m, chunk).offset <= FRAME_TOTAL_INTS
  {
    var m' := StepAsWritten(m, chunk);
    if |chunk| > 0 && !(m.state == FindSof && chunk[0] != USB_SOF)
       && Fill(m.buff, m.offset, chunk)[m.offset + |chunk| - 1] == USB_EOF {
      assert m'.warnings[|m.warnings|..] == FrameWarnings(Fill(m.buff, m.offset, chunk)[1], m.offset + |chunk|, m.lastTimestamp);
    } else {
      assert m'.warnings == m.warnings;
    }
  }

  /** 1253 words from SOF without EOF in one read. */
  function OverlongChunk(): (c: seq<Word>)
    ensures |c| == FRAME_TOTAL_INTS && c[0] == USB_SOF && c[|c| - 1] != USB_EOF
  {
    [USB_SOF] + seq(FRAME_TOTAL_INTS - 1, _ => 0)
  }

  /**
   * As written, a 1253-word chunk from SOF without EOF fills the buffer,
   * after which `read()` is asked for 0 words, returns 0 and the loop
   * sleeps forever: the only chunk that fits is empty and changes nothing.
   * The corrected step drops the frame with `FrameLengthError` instead.
   */
  lemma FullBufferStallsAsWritten()
    ensures var m := StepAsWritten(Start(), OverlongChunk());
            && m.offset == FRAME_TOTAL_INTS && m.state == FindEof
            && (forall chunk :: Fits(m, chunk) ==> chunk == [] && StepAsWritten(m, chunk) == m)
    ensures var m := Step(Start(), OverlongChunk());
            m.offset == 0 && m.state == FindSof && m.warnings == [FrameLengthError]
  {
    assert Fill(Start().buff, 0, OverlongChunk())[FRAME_TOTAL_INTS - 1] == OverlongChunk()[FRAME_TOTAL_INTS - 1];
  }

  /**
   * As written, the millisecond stamp wraps once it reaches 4294968
   * (about 71.6 minutes of device uptime): the row time falls from about
   * 4.29e9 us to 704 us, and a frame 100 ms later is stamped before the
   * one it follows.
   */
  lemma TimestampWrapsAsWritten()
    ensures RowMicrosAsWritten(4294968, 0) == 704
    ensures RowMicros(4294968, 0) == 4294968000
    ensures RowMicrosAsWritten(4294967 + 100, 0) < RowMicrosAsWritten(4294967, N_FRAME_DATA - 1)
  {
  }

  /** Below the wrap point the two time formulas agree. */
  lemma TimestampAgreesBelowWrap(ts: Word, i: nat)
    requires ts as nat * 1000 < 0x1_0000_0000
    ensures RowMicrosAsWritten(ts, i) == RowMicros(ts, i)
  {
  }

  /**
   * The two readings differ only where the findings say: while the words
   * read stay below 1253 and the frame stamp times 1000 fits in 32 bits,
   * the pass as written is the corrected pass.
   */
  lemma AsWrittenAgreesAwayFromFindings(m: Machine, chunk: seq<Word>)
    requires Ready(m) && Fits(m, chunk) && m.offset + |chunk| < FRAME_TOTAL_INTS
    requires Fill(m.buff, m.offset, chunk)[1] as nat * 1000 < 0x1_0000_0000
    ensures StepAsWritten(m, chunk) == Step(m, chunk)
  {
    var buff := Fill(m.buff, m.offset, chunk);
    assert FrameRows(buff, AsWritten) == FrameRows(buff, Corrected) by {
      forall i | 0 <= i < N_FRAME_DATA
        ensures FrameRows(buff, AsWritten)[i] == FrameRows(buff, Corrected)[i]
      {
        TimestampAgreesBelowWrap(buff[1], i);
      }
    }
  }

  /**
   * As written, a frame stamped 4294968 ms that completes in a pass gets
   * its first row at 704 us; the corrected pass writes 4294968000 us.
   */
  lemma WrappedFrameAsWritten(m: Machine, chunk: seq<Word>)
    requires Ready(m) && Fits(m, chunk)
    requires |chunk| > 0 && (m.state == FindEof || chunk[0] == USB_SOF) && chunk[|chunk| - 1] == USB_EOF
    requires Fill(m.buff, m.offset, chunk)[1] == 4294968
    ensures StepAsWritten(m, chunk).rows[|m.rows|].micros == 704
    ensures Step(m, chunk).rows[|m.rows|].micros == 4294968000
  {
    var buff := Fill(m.buff, m.offset, chunk);
    assert buff[m.offset + |chunk| - 1] == chunk[|chunk| - 1];
    assert StepAsWritten(m, chunk).rows == m.rows + FrameRows(buff, AsWritten);
    assert Step(m, chunk).rows == m.rows + FrameRows(buff, Corrected);
  }

  // ------------------------------------------------------- the assembler

  /** `main`'s loop state: `frame_buff`, `read_ptr`, `state` and the static `last_frame_timestamp`, plus its output. */
  class FrameAssembler {
    const frameBuff: array<Word>
    var offset: nat
    var state: State
    var lastFrameTimestamp: Word
    var rows: seq<Row>
    var warnings: seq<Warning>

    function Snapshot(): Machine
      reads this, frameBuff
    {
      Machine(frameBuff[..], offset, state, lastFrameTimestamp, rows, warnings)
    }

    ghost predicate Valid()
      reads this, frameBuff
    {
      Ready(Snapshot())
    }

    /** The buffer `calloc`ed, lines 129 and 138-139. */
    constructor()
      ensures Valid() && fresh(frameBuff)
      ensures Snapshot() == Start()
    {
      frameBuff := new Word[FRAME_TOTAL_INTS](_ => 0);
      offset, state, lastFrameTimestamp := 0, FindSof, 0;
      rows, warnings := [], [];
      new;
      assert frameBuff[..] == seq(FRAME_TOTAL_INTS, _ => 0);
    }

    /** One pass of the loop (lines 145-211) on the words one `read()` returned. */
    method Consume(chunk: seq<Word>)
      requires Valid() && offset + |chunk| <= FRAME_TOTAL_INTS
      modifies this, frameBuff
      ensures Valid()
      ensures Snapshot() == Step(old(Snapshot()), chunk)
    {
      ghost var before := Snapshot();
      var n := |chunk|;
      if n == 0 {
        return;  // nothing read: sleep 1 ms
      }
      ReadInto(chunk);
      if state == FindSof {
        if frameBuff[offset] != USB_SOF {
          return;  // not the start of a frame
        }
        state := FindEof;
      }
      var last := offset + n - 1;
      if frameBuff[last] != USB_EOF {
        if last + 1 >= FRAME_TOTAL_INTS {
          warnings := warnings + [FrameLengthError];
          offset, state := 0, FindSof;
          return;
        }
        offset := last + 1;
        return;
      }
      StepEmits(before, chunk);
      EmitFrame(last + 1);
    }

    /** `read()` writing the chunk into the buffer at `read_ptr`. */
    method ReadInto(chunk: seq<Word>)
      requires frameBuff.Length == FRAME_TOTAL_INTS && offset + |chunk| <= FRAME_TOTAL_INTS
      modifies frameBuff
      ensures frameBuff[..] == Fill(old(frameBuff[..]), offset, chunk)
    {
      ghost var before := frameBuff[..];
      forall i | offset <= i < offset + |chunk| {
        frameBuff[i] := chunk[i - offset];
      }
      assert forall i :: 0 <= i < FRAME_TOTAL_INTS ==> frameBuff[..][i] == Fill(before, offset, chunk)[i];
    }

    /** Lines 184-210: the warnings, the 1250 CSV rows and the reset. */
    method EmitFrame(count: nat)
      requires frameBuff.Length == FRAME_TOTAL_INTS
      modifies this
      ensures Valid()
      ensures Snapshot() == Emit(old(Snapshot()), count, Corrected)
    {
      CheckFrame(count);
      WriteRows();
      offset, state := 0, FindSof;
    }

    /** Lines 184-197: the size and interval warnings; the frame's stamp becomes the last one seen. */
    method CheckFrame(count: nat)
      requires frameBuff.Length == FRAME_TOTAL_INTS
      modifies this`warnings, this`lastFrameTimestamp
      ensures warnings == old(warnings) + FrameWarnings(frameBuff[1], count, old(lastFrameTimestamp))
      ensures lastFrameTimestamp == frameBuff[1]
    {
      var ts := frameBuff[1];
      if count != FRAME_TOTAL_INTS {
        warnings := warnings + [FrameSizeMismatch(ts, count)];
      }
      if lastFrameTimestamp != 0 {
        var interval := Minus(ts, lastFrameTimestamp);
        if interval != FRAME_INTERVAL {
          warnings := warnings + [IntervalMismatch(interval)];
        }
      }
      lastFrameTimestamp := ts;
    }

    /** Lines 201-206: one row per sample, the time advancing by 80 us. */
    method WriteRows()
      requires frameBuff.Length == FRAME_TOTAL_INTS
      modifies this`rows
      ensures rows == old(rows) + FrameRows(frameBuff[..], Corrected)
    {
      ghost var frame := FrameRows(frameBuff[..], Corrected);
      var ts := frameBuff[1];
      var micros: nat := ts as nat * 1000;
      var i := 2;
      while i < FRAME_TOTAL_INTS - 1
        invariant 2 <= i <= FRAME_TOTAL_INTS - 1
        invariant rows == old(rows) + frame[..i - 2]
        invariant micros == RowMicros(ts, i - 2)
      {
        rows := rows + [Row(micros, Signed(frameBuff[i]))];
        micros := micros + SAMPLE_SPACING;
        i := i + 1;
      }
      assert frame[..N_FRAME_DATA] == frame;
    }
  }

  /** `main`'s loop over a run of reads, each fitting the space left. */
  method Assemble(chunks: seq<seq<Word>>) returns (a: FrameAssembler)
    requires Feasible(Start(), chunks)
    ensures a.Valid() && a.Snapshot() == Run(Start(), chunks)
  {
    a := new FrameAssembler();
    var k := 0;
    while k < |chunks|
      invariant 0 <= k <= |chunks|
      invariant a.Valid() && Feasible(a.Snapshot(), chunks[k..])
      invariant Run(a.Snapshot(), chunks[k..]) == Run(Start(), chunks)
    {
      a.Consume(chunks[k]);
      assert chunks[k..][1..] == chunks[k + 1..];
      k := k + 1;
    }
  }

  /** Every chunk in turn fits the space the previous ones left. */
  predicate Feasible(m: Machine, chunks: seq<seq<Word>>)
    decreases |chunks|
  {
    Ready(m) && (|chunks| > 0 ==> Fits(m, chunks[0]) && Feasible(Step(m, chunks[0]), chunks[1..]))
  }

  /** The machine after a run of reads. */
  function Run(m: Machine, chunks: seq<seq<Word>>): (r: Machine)
    requires Feasible(m, chunks)
    ensures Ready(r)
    decreases |chunks|
  {
    if |chunks| == 0 then m else Run(Step(m, chunks[0]), chunks[1..])
  }

  /** A run of reads only appends to the CSV output, and only whole frames of 1250 rows. */
  lemma {:induction false} RunAppendsWholeFrames(m: Machine, chunks: seq<seq<Word>>)
    requires Feasible(m, chunks)
    ensures var r := Run(m, chunks);
            && |r.rows| >= |m.rows| && r.rows[..|m.rows|] == m.rows
            && (|r.rows| - |m.rows|) % N_FRAME_DATA == 0
    decreases |chunks|
  {
    if |chunks| > 0 {
      EmitsFrameOrNothing(m, chunks[0]);
      RunAppendsWholeFrames(Step(m, chunks[0]), chunks[1..]);
      AppendsChain(m.rows, Step(m, chunks[0]).rows, Run(Step(m, chunks[0]), chunks[1..]).rows);
    }
  }

  /** Appending whole frames twice appends whole frames. */
  lemma AppendsChain(a: seq<Row>, b: seq<Row>, c: seq<Row>)
    requires b == a || (|b| == |a| + N_FRAME_DATA && b[..|a|] == a)
    requires |c| >= |b| && c[..|b|] == b && (|c| - |b|) % N_FRAME_DATA == 0
    ensures |c| >= |a| && c[..|a|] == a && (|c| - |a|) % N_FRAME_DATA == 0
  {
    assert c[..|a|] == c[..|b|][..|a|];
    if b != a {
      assert |c| - |a| == (|c| - |b|) + N_FRAME_DATA;
    }
  }

  /** A pass appends either nothing or one whole frame of rows. */
  lemma EmitsFrameOrNothing(m: Machine, chunk: seq<Word>)
    requires Ready(m) && Fits(m, chunk)
    ensures var m' := Step(m, chunk);
            (m'.rows == m.rows) || (|m'.rows| == |m.rows| + N_FRAME_DATA && m'.rows[..|m.rows|] == m.rows)
  {
  }
}
