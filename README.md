# Vibration test bench: a verified Dafny model

The bench records a vibration sensor while a control moment gyroscope
(CMG) spins, and then analyses the recording. This project models the three
parts of it that compute something, and proves properties of each:

- **Spectral analysis** (`analyze_vibration.py`), in `series.dfy`,
  `segmenting.dfy` and `analyze_vibration.dfy`:
  - mean removal;
  - the segment-length clamp, hop size and segment start offsets;
  - Welch's averaged periodogram;
  - the single-sided amplitude spectrum with coherent-gain correction;
  - the numeric half of the spectrogram: stacking, time and frequency axes,
    the `fmax` mask and the `eps` floor;
  - `main`'s spectrogram segment length.

  Samples are exact reals. The FFT magnitudes and the Hann/Hamming tapers
  are numpy calls, so they come in as a `Numerics` value that promises only
  their lengths. Each loop of the source is a method proved equal to a
  specification function, and the properties are proved about that function.
- **The USB frame reader** (`read_cdc.c`), in `read_cdc.dfy`:
  - the argument scanner `parse_arg`;
  - the frame-assembly state machine of `main`, as a value-level step
    function under two readings: `StepAsWritten` is the loop as the code
    stands, and `Step` is the loop with both defects under "## Findings"
    repaired (the overrun check and the 32-bit row time);
  - the corrected loop as the class `FrameAssembler`. It holds the
    1253-word buffer as an array, plus the write offset, the state, the
    last frame timestamp, and the CSV rows and warnings written so far.

  Each `read()` becomes the chunk of words it returned. Each method of the
  class is proved against `Step`, so the class, and the rows citing it
  below, model the corrected loop; `AsWrittenAgreesAwayFromFindings`
  shows that the two readings differ only on the findings' inputs.
- **The recording scripts** (`recorder.py`, `record.py`), in `recorder.dfy`:
  - serial-number extraction from `cmg-cli` output, characterised against a
    declarative reading of the pattern `SNID:\s*(\S+)`;
  - CMG port selection, with an in-place sort;
  - `record`'s exit-code rule;
  - the "no port, no command" guards of `rot_wh_gim`, `rot_wh` and `stop`.

  Both scripts hold the same `get_cmg_snid` and `det_cmg_port`, so one
  model covers both. Every helper program becomes a `RunOutcome` parameter
  that says what it would do if started.

`wrappers.dfy` holds the shared `Option` and `Result` types.

Where the system's written design and the code disagree, the model follows
the code:

- **Welch fallback.** The design, and the comment at
  `analyze_vibration.py:52`, describe a zero-padded fallback for signals
  shorter than a segment. The clamp at lines 27-28 makes a segment fit
  whenever the signal is non-empty, and an empty signal makes the transform
  fail. So the fallback is never taken (`WelchNeverFallsBack`).
- **Unknown window name.** The design says it is rejected. The code uses
  the rectangular window.
- **Overlap of 1 or more.** The design says it is rejected. The code forces
  the step to 1.
- **Zero divisors.** A window with `U = 0` or `cg = 0`, for example
  `np.hanning(2)`, makes numpy produce nan/inf. The model returns an
  explicit `Failure` instead.

## Model

| member | source | states |
|---|---|---|
| Series.Detrend | analyze_vibration.py:17-18 | the result has the input's length, and each sample is lowered by the input's mean |
| Series.DetrendSumsToZero | analyze_vibration.py:17-18 | a mean-removed signal sums to exactly zero |
| Series.MeanShifted | analyze_vibration.py:17-18 | lowering every sample by `c` lowers the mean by `c` |
| Series.DetrendAbsorbsShift | analyze_vibration.py:17-18 | a constant offset added before mean removal leaves no trace in the result |
| Series.DetrendIdempotent | analyze_vibration.py:17-18 | removing the mean twice is the same as removing it once |
| Segmenting.Trunc | analyze_vibration.py:29 | `int()` truncates toward zero: the bounds of the result for non-negative and for negative arguments |
| Segmenting.ClampLength | analyze_vibration.py:27-28 | the clamped length is at most `N` and at most `nperseg`, and is one of the two |
| Segmenting.StepFor | analyze_vibration.py:29-31 | the hop between segments is at least 1 |
| Segmenting.StepAtMostLength | analyze_vibration.py:29-31 | with a non-negative overlap the hop is at most the segment length, so no sample is skipped |
| Segmenting.Starts | analyze_vibration.py:42 | every start offset `s` has `0 <= s` and `s + L <= N`: each slice lies inside the signal |
| Segmenting.RangeElements | analyze_vibration.py:42 | the `j`-th value of `range(start, stop, step)` is `start + j*step` |
| Segmenting.RangeLength | analyze_vibration.py:42 | `range(start, stop, step)` has `(stop-1-start)//step + 1` values, or none when `start >= stop` |
| Segmenting.StartsShape | analyze_vibration.py:42 | there are `(N-L)//step + 1` starts when `L <= N` and none otherwise; the `j`-th is `j*step`; one more start would overrun the signal |
| Segmenting.StartsNonEmpty | analyze_vibration.py:42 | with `1 <= L <= N`, offset 0 is always a start |
| Segmenting.StartsEvenlySpaced | analyze_vibration.py:148 | the `j`-th spectrogram segment starts at `j*step` |
| AnalyzeVibration.WindowKindOf | analyze_vibration.py:33-38 | 'hann' selects Hann, 'hamming' selects Hamming, and any other name selects the ones window (each as an if-and-only-if) |
| AnalyzeVibration.Window | analyze_vibration.py:33-38 | the taper has the requested length, and the ones window is all 1.0 |
| AnalyzeVibration.SumSquares | analyze_vibration.py:39 | the normaliser `U = sum(w**2)` is never negative |
| AnalyzeVibration.RectangularWindowGains | analyze_vibration.py:81-86 | the ones window has `U = L` and coherent gain exactly 1 |
| AnalyzeVibration.UnitWindowBounds | analyze_vibration.py:39 | coefficients in [0, 1] give `U <= L` and `0 <= cg <= 1` |
| AnalyzeVibration.PowerBins | analyze_vibration.py:48 | `abs(X)**2 / (fs*U)` keeps one value per bin, and each is non-negative |
| AnalyzeVibration.SegmentPsd | analyze_vibration.py:43-48 | a segment's periodogram has `L/2 + 1` non-negative bins |
| AnalyzeVibration.SegmentPsds | analyze_vibration.py:41-49 | one periodogram per start, and row `j` is the periodogram of the slice at `starts[j]` |
| AnalyzeVibration.BinMeanNonNegative | analyze_vibration.py:63 | the bin-wise mean of non-negative periodograms is non-negative |
| AnalyzeVibration.BinMeanOfOne | analyze_vibration.py:63 | the mean of a single periodogram is that periodogram |
| AnalyzeVibration.RfftFreqsAxis | analyze_vibration.py:65 | the frequency axis starts at 0, rises by `fs/L` per bin, is strictly increasing and never exceeds `fs/2`; its last bin is `fs/2` exactly when `L` is even |
| AnalyzeVibration.AverageNeverFallsBack | analyze_vibration.py:40-63 | when the segment fits, offset 0 is a start and the estimate is the bin-wise mean of the segment periodograms |
| AnalyzeVibration.AverageShape | analyze_vibration.py:40-63 | when the segment fits, the estimate has `L/2 + 1` non-negative values |
| AnalyzeVibration.WelchNeverFallsBack | analyze_vibration.py:51-63 | an empty signal or `nperseg < 1` makes the transform fail; otherwise the result is always the average over at least one segment starting at 0, so the zero-padding branch is dead |
| AnalyzeVibration.WelchEstimate | analyze_vibration.py:20-66 | `welch_psd` fails exactly when the clamped length is below 1 or `U = 0`; on success `1 <= L <= N`, `L <= nperseg`, and there are `L/2 + 1` frequencies and as many non-negative PSD values |
| AnalyzeVibration.DetrendInPlace | analyze_vibration.py:44-45 | the segment buffer ends up mean-removed |
| AnalyzeVibration.TaperInPlace | analyze_vibration.py:46 | the segment buffer ends up multiplied by the window element by element |
| AnalyzeVibration.SegmentPower | analyze_vibration.py:43-48 | the loop body yields the periodogram of the slice at `start` |
| AnalyzeVibration.CollectSegments | analyze_vibration.py:41-49 | the segment loop collects the periodograms of all starts, in start order |
| AnalyzeVibration.AverageSegments | analyze_vibration.py:40-63 | the loop followed by the average or the fallback computes the Welch average |
| AnalyzeVibration.WelchPsd | analyze_vibration.py:20-66 | the imperative `welch_psd` returns exactly the specified estimate `Welch` |
| AnalyzeVibration.Scaled | analyze_vibration.py:88 | each scaled amplitude times the divisor gives back the magnitude |
| AnalyzeVibration.AmplitudeScale | analyze_vibration.py:88 | the divisor `N*cg` is non-zero for a non-empty signal and a non-zero gain |
| AnalyzeVibration.SingleSidedRule | analyze_vibration.py:89-93 | DC is kept; for even `N` the Nyquist bin is kept and bins `1..N/2-1` are doubled; for odd `N` every bin but DC is doubled |
| AnalyzeVibration.DoubleSingleSided | analyze_vibration.py:89-93 | the in-place doubling of `amp[1:-1]` or `amp[1:]` leaves the buffer equal to `SingleSided` of its old contents |
| AnalyzeVibration.ScaledBuffer | analyze_vibration.py:88 | the fresh buffer holds `abs(X) / (N*cg)` |
| AnalyzeVibration.ComputeAmplitudeSpectrum | analyze_vibration.py:68-95 | the imperative `amplitude_spectrum` returns exactly `AmplitudeSpectrum` |
| AnalyzeVibration.AmplitudeParts | analyze_vibration.py:73-93 | a computed amplitude spectrum needs `N >= 1` and `N*cg != 0`, and its values are the single-sided fold of the magnitudes divided by `N*cg` |
| AnalyzeVibration.ScaledSingleSidedRule | analyze_vibration.py:88-93 | dividing by `d` and then folding obeys the single-sided rule with respect to the raw magnitudes |
| AnalyzeVibration.AmplitudeDoublingRule | analyze_vibration.py:68-95 | every computed amplitude times `N*cg` is the magnitude of the tapered (optionally detrended) signal, doubled exactly for the bins with a negative-frequency twin |
| AnalyzeVibration.Transpose | analyze_vibration.py:156 | row `k` of `Sxx` is bin `k` of every segment |
| AnalyzeVibration.KeepUpTo | analyze_vibration.py:160-163 | the mask never adds entries |
| AnalyzeVibration.KeepUpToMembers | analyze_vibration.py:161-162 | the kept frequencies are exactly the axis values at most `fmax` |
| AnalyzeVibration.KeepUpToPrefix | analyze_vibration.py:160-163 | on an increasing axis the mask keeps a prefix: every kept frequency is at most `fmax`, every dropped one is above it, and rows keep their order |
| AnalyzeVibration.FloorEps | analyze_vibration.py:166 | `maximum(v, eps)` is at least both `v` and `eps`, and is one of them |
| AnalyzeVibration.FloorGrid | analyze_vibration.py:166 | the floored grid has the same shape, and each cell is floored at `eps` |
| AnalyzeVibration.SegmentTimes | analyze_vibration.py:158 | one time stamp per column |
| AnalyzeVibration.SegmentTimesAt | analyze_vibration.py:158 | column `j`'s time times `fs` is its segment's start offset |
| AnalyzeVibration.GridShape | analyze_vibration.py:155-166 | one column per segment, stamped `j*step/fs`; without `fmax` all `L/2+1` frequency rows are kept; with `fmax` the kept rows are a prefix of the axis, all at most `fmax`, and every dropped frequency exceeds it; cell `(k, j)` is bin `k` of column `j` floored at `eps` |
| AnalyzeVibration.GridShapeAt | analyze_vibration.py:155-166 | the same grid, with each column's time tied to its start offset over `fs` |
| AnalyzeVibration.StartsEmptyIff | analyze_vibration.py:148 | there is no segment exactly when the signal is shorter than the segment |
| AnalyzeVibration.SpectrogramData | analyze_vibration.py:133-166 | the imperative computation returns exactly `SpectrogramOf` |
| AnalyzeVibration.SpectrogramColumns | analyze_vibration.py:147-156 | a successful spectrogram is the grid over `columns`, which are exactly the periodograms (`RawColumns`) of the raw signal's segments, at least one, with a window of non-zero energy |
| AnalyzeVibration.SpectrogramShape | analyze_vibration.py:133-166 | success implies `1 <= nperseg <= N` and at least one segment; the grid has a column per start stamped at `start/fs`, every frequency row without `fmax` and exactly the rows at or below `fmax` with it, and each cell is the floored bin of the raw signal's segment periodogram |
| AnalyzeVibration.SliceOfDetrended | analyze_vibration.py:134-150 | a slice of the mean-removed signal is the slice lowered by the whole signal's mean |
| AnalyzeVibration.SegmentIgnoresOffset | analyze_vibration.py:148-153 | one segment's periodogram is unchanged by first removing the whole signal's mean |
| AnalyzeVibration.SegmentsIgnoreOffset | analyze_vibration.py:134-154 | the same holds for every segment |
| AnalyzeVibration.SpectrogramIgnoresDetrendFlag | analyze_vibration.py:135-136 | the spectrogram is identical for `detrend=True` and `detrend=False` |
| AnalyzeVibration.UnclampedSpectrogramFails | analyze_vibration.py:156-158 | with `nperseg > N` there is no column and the call fails |
| AnalyzeVibration.SpectrogramSegmentLength | analyze_vibration.py:213 | the spectrogram segment length is at most `N`; it is `N` or at least 256; it is at least 1 for a non-empty signal |
| AnalyzeVibration.MainSpectrogramHasColumns | analyze_vibration.py:213-214 | with `main`'s clamp a non-empty signal gives at least one column; the only possible failure is a window without energy |
| ReadCdc.ParseArg | read_cdc.c:45-61 | the scanning loop returns exactly `ParseArgs`, and a trailing `-p` is undefined behaviour |
| ReadCdc.ScanSettings | read_cdc.c:51-60 | flag/value pairs are consumed pair by pair, and each field ends with the value of its last flag |
| ReadCdc.LastFlagWins | read_cdc.c:47-61 | any list of `-p`/`-o` pairs parses; the last flag of each kind wins; unset fields keep `/dev/ttyACM0` and `vibration_data.csv` |
| ReadCdc.TrailingFlag | read_cdc.c:53-58 | a trailing `-p` is undefined behaviour; a trailing `-o` is ignored |
| ReadCdc.NoFlagsKeepDefaults | read_cdc.c:47-61 | tokens that are neither flag are skipped wherever they stand: a run of them before any further arguments does not change their parse, and without flags the defaults stand |
| ReadCdc.FlagValueLooksLikeFlag | read_cdc.c:53-59 | illustration on two inputs, not a general property (that is `LastFlagWins`): the token after a flag is its value even when it looks like a flag |
| ReadCdc.Minus | read_cdc.c:192 | `uint32_t` subtraction is the difference modulo 2^32 |
| ReadCdc.Signed | read_cdc.c:204 | `%d` of a word is its two's-complement value: in range, negative exactly when the top bit is set, and congruent to the word |
| ReadCdc.Fill | read_cdc.c:145 | `read()` overwrites exactly the words from the write offset on |
| ReadCdc.FrameRows | read_cdc.c:201-206 | a frame yields 1250 rows |
| ReadCdc.SampleSpacing | read_cdc.c:205 | illustration of the constant, not a general property: samples are 80 us apart, and 1250 samples span less than the 100 ms frame interval |
| ReadCdc.StepKeepsReady | read_cdc.c:145-181 | the corrected loop keeps the buffer from filling, so `read()` always has room for a word |
| ReadCdc.SofGate | read_cdc.c:160-163 | while looking for SOF, a chunk that does not start with SOF changes nothing but the buffer |
| ReadCdc.EmitsIffChunkEndsWithEof | read_cdc.c:167-183 | a frame is emitted exactly when an accepted chunk ends with EOF; an EOF anywhere else in the chunk is missed |
| ReadCdc.NonEofChunkAdvances | read_cdc.c:169-181 | an accepted chunk without a final EOF advances the offset by its length and is stored there |
| ReadCdc.EofChunkEmitsFrame | read_cdc.c:184-210 | in the corrected loop, a chunk ending in EOF appends 1250 rows (sample `i` signed, at the widened time `ts*1000 + 80*i` us); the size and interval warnings fire exactly on their conditions; the assembler resets |
| ReadCdc.EmitFacts | read_cdc.c:184-210 | under either reading, emitting a frame appends its 1250 rows at that reading's row time and its warnings, records the stamp, and resets |
| ReadCdc.FrameRowsInOrder | read_cdc.c:201-206 | rows are 80 us apart, and a frame 100 ms later starts after this one ends |
| ReadCdc.OverrunResetUnreachable | read_cdc.c:169-178 | as written, the length-error reset never fires |
| ReadCdc.FullBufferStallsAsWritten | read_cdc.c:145-181 | as written, a 1253-word chunk without EOF fills the buffer, after which no read can change the state; the corrected step drops the frame |
| ReadCdc.TimestampWrapsAsWritten | read_cdc.c:201 | as written, the microsecond time wraps at 4294968 ms and goes backwards |
| ReadCdc.TimestampAgreesBelowWrap | read_cdc.c:201 | below the wrap point, the time as written equals the intended time |
| ReadCdc.AsWrittenAgreesAwayFromFindings | read_cdc.c:145-211 | while a pass reads fewer than 1253 words in all and the stamp times 1000 fits in 32 bits, the loop as written and the corrected loop make the same step |
| ReadCdc.WrappedFrameAsWritten | read_cdc.c:184-206 | as written, a frame stamped 4294968 ms completed in a pass gets its first row at 704 us; the corrected loop writes 4294968000 us |
| ReadCdc.FrameAssembler.constructor | read_cdc.c:129-139 | a zeroed 1253-word buffer, offset 0, looking for SOF, no timestamp seen |
| ReadCdc.FrameAssembler.Consume | read_cdc.c:145-211 | one pass of the corrected loop (both findings repaired) updates the object exactly as `Step` updates its snapshot, and keeps the invariant |
| ReadCdc.FrameAssembler.ReadInto | read_cdc.c:145 | the buffer becomes `Fill` of its old contents |
| ReadCdc.FrameAssembler.EmitFrame | read_cdc.c:184-210 | the object becomes the corrected `Emit` of its old snapshot |
| ReadCdc.FrameAssembler.CheckFrame | read_cdc.c:184-197 | appends the frame's warnings and records its timestamp |
| ReadCdc.FrameAssembler.WriteRows | read_cdc.c:201-206 | appends exactly the frame's 1250 rows, timed from the stamp widened before the multiplication (corrected line 201) |
| ReadCdc.Assemble | read_cdc.c:138-212 | a run of reads leaves the assembler in state `Run(Start(), chunks)` |
| ReadCdc.Run | read_cdc.c:142-212 | every run of reads keeps the loop invariant |
| ReadCdc.EmitsFrameOrNothing | read_cdc.c:167-211 | one pass appends either no rows or one whole frame |
| ReadCdc.RunAppendsWholeFrames | read_cdc.c:142-212 | CSV output is only ever appended, in whole frames of 1250 rows |
| Recorder.SplitLines | recorder.py:110 | no line contains a line break |
| Recorder.SplitLinesOfOneLine | recorder.py:110 | text without a break is one line, and empty text has no lines |
| Recorder.SplitLinesCons | recorder.py:110 | a line ended by `\n` comes first, followed by the lines of the rest |
| Recorder.SkipBlank | recorder.py:113 | greedy `\s*` stops at the first non-whitespace character |
| Recorder.TokenEnd | recorder.py:113 | greedy `\S+` stops at the first whitespace character |
| Recorder.MatchAtMeansSnidAt | recorder.py:113 | the anchored matcher captures `t` exactly when the line reads `SNID:`, whitespace, the token `t`, then the end of the line or whitespace |
| Recorder.NoMatchMeansNoSnid | recorder.py:113 | the matcher finds nothing at `p` exactly when the pattern matches nothing there |
| Recorder.BlankAfterTagIsNoMatch | recorder.py:111-114 | `SNID:` followed only by whitespace is no match |
| Recorder.LineSnidIsLeftmost | recorder.py:113-115 | a line yields `t` exactly when the pattern captures `t` at some position and matches nowhere to its left |
| Recorder.LineSnidMisses | recorder.py:113-114 | a line yields nothing exactly when the pattern matches at no position |
| Recorder.LineSnidIsToken | recorder.py:111-115 | a yielded SNID is non-empty and whitespace-free, and its line contains `SNID:` (record.py:99-101 is the same code) |
| Recorder.FirstSnidIsFirstMatchingLine | recorder.py:110-117 | the result is the capture of the first line that yields one; the `'SNID:' in line` filter hides no match (record.py:96-101 is the same search) |
| Recorder.FirstSnidStopsAtFirst | recorder.py:110-117 | once a line has yielded the SNID, later lines never matter |
| Recorder.NoDeviceNoSnid | recorder.py:94-96 | with no device, or an empty one, the result is `None`, whatever the program would answer (record.py:82-83 is the same guard) |
| Recorder.GetCmgSnidSpec | recorder.py:101-130 | with a device, the SNID is `t` exactly when `cmg-cli` exits 0 and the first yielding output line yields `t`; such a `t` is a token; no yielding line gives `None` (record.py:85-113 is the same rule) |
| Recorder.SnidReplyExample | recorder.py:112-117 | illustration on one reply, not a general property (that is `GetCmgSnidSpec`): `SNID:  TCM102052` yields `TCM102052`; `SNID:` followed by blanks yields nothing |
| Recorder.SortedHeadIsLeast | recorder.py:72-75 | after sorting, the first path is at most every path |
| Recorder.SortPaths | recorder.py:72 | `sort()` leaves a sorted permutation of the paths in place |
| Recorder.DetCmgPort | recorder.py:67-77 | `None` exactly for an empty list; otherwise a listed path that is at most every listed path (record.py:58-65 is the same selection) |
| Recorder.LeastPathUnique | recorder.py:71-75 | only one listed path is least, so the choice does not depend on the listing order |
| Recorder.RecordOkIffTimeoutCode | recorder.py:253-262 | `record` returns True exactly when it ran the command and `timeout` exited with 124 |
| Recorder.RecordDrivesReadCdc | recorder.py:242-250 | the command `record` runs makes read_cdc read the chosen port and write the requested file |
| Recorder.GivenPortWins | recorder.py:233-246 | a port that is passed in is used as it is, and detection is not consulted |
| Recorder.NoPortNoCommand | recorder.py:146-286 | with no port passed and none detected, `record` (233-237), `rot_wh_gim` (146-150), `rot_wh` (191-195) and `stop` (282-286) each return False and run nothing |
| Recorder.CmgOkIffZeroExit | recorder.py:152-314 | `rot_wh_gim` (152-176), `rot_wh` (196-218) and `stop` (288-314) each return True exactly when the command ran and `cmg-cli` exited with 0 (`check=True`) |

## Left out

- FFT, `np.hanning` and `np.hamming`: these are floating-point library calls. They are the `Numerics` value, constrained only by their lengths.
- Amplitude and PSD accuracy on sinusoids: this depends on IEEE rounding and cannot be stated over the abstract FFT.
- `10*log10` of the floored spectrogram, and all plotting, CSV reading, `argparse`, printing and file writing: these are output formatting and I/O. The model stops at the floored grid.
- Division by zero in numpy (`U = 0` or `cg = 0`): numpy yields nan/inf. The model returns `Failure(ZeroWindowEnergy)` or `Failure(ZeroCoherentGain)`.
- A negative `nperseg` given to `plot_spectrogram`: numpy raises somewhere inside slicing or `rfft`. The model reports `EmptyTransform` for any `nperseg < 1`.
- `set_tty`, `set_output_file`, signal handlers, `nanosleep`, and the `fprintf` text of the warnings: these are terminal and file I/O. Warnings are kept as values.
- `read()` errors (`n < 0` ends the program): the model only receives chunks of whole words.
- Byte counts that are not a multiple of 4: the model receives whole words.
- The echo of the parsed arguments to stdout in `parse_arg`: this is output only.
- `det_vib_port`, `glob`, `udevadm`, `subprocess.run`, the 10 s timeouts and logging: these are foreign processes. The device list and each `RunOutcome` are parameters. `detected` stands for what detection returned.
- Formatting of the speeds and of `str(duration)` in command lines: the model takes those strings as given.
- record_all.py: an orchestration script whose effects are all external.
- AnalyzeVibration.Welch, AnalyzeVibration.AmplitudeSpectrum, AnalyzeVibration.SpectrogramOf (and their methods WelchPsd, ComputeAmplitudeSpectrum, SpectrogramData): require `fs > 0`. The program accepts any float for `--fs` (analyze_vibration.py:183); with `fs = 0` it raises `ZeroDivisionError` at `d=1.0/fs` (lines 65, 94, 157), and with `fs < 0` it returns negative PSD values and a negative frequency axis. Neither case is modelled.
- Segmenting.StepFor: computes `int(nperseg*(1.0-overlap))` over exact reals. Floating-point rounding can change the integer: for `nperseg = 100` and `overlap = 0.9` Python computes a hop of 9, whereas the exact product `100 * 0.1 = 10` gives 10. The model does not capture that rounding.
- ReadCdc.FrameAssembler: models the corrected loop, not the loop as written; the code as written is `StepAsWritten` at value level only.
- AnalyzeVibration.SegmentPsds: does not model numpy's `vstack`/`.T` shape errors for ragged rows, because every row has the same length by construction.

## Findings

| source | as written | input that shows it | evidently intended | confidence | as-written member | corrected member |
|---|---|---|---|---|---|---|
| read_cdc.c:169-181 | the overrun check tests the index of the last word read (`read_ptr - frame_buff >= 1253`), which is at most 1252, so it never fires; a frame that fills the buffer without EOF leaves the offset at 1253, and every later `read()` asks for 0 bytes and the loop sleeps forever | one `read()` of 1253 words starting with `0x55555555` and not ending with `0xAAAAAAAA` | drop the frame with the length error once the buffer is full without EOF | high (not executed) | ReadCdc.FullBufferStallsAsWritten | ReadCdc.StepKeepsReady |
| read_cdc.c:201 | `(uint32_t)frame_buff[1] * 1000` is computed in 32 bits before it is widened, so the microsecond time wraps modulo 2^32 | a frame stamped 4294968 ms (about 71.6 minutes of uptime) gets row time 704 us instead of 4294968000 us | widen before multiplying: row `i` at `ts*1000 + 80*i` us | high (not executed) | ReadCdc.WrappedFrameAsWritten | ReadCdc.FrameRowsInOrder |

In both rows the corrected behaviour is the one `Step` and the class
`FrameAssembler` implement: `StepKeepsReady` and `FrameAssembler.Consume`
for the overrun check, `FrameRowsInOrder`, `EofChunkEmitsFrame` and
`FrameAssembler.WriteRows` for the row time. `TimestampWrapsAsWritten`
gives the wrap on plain numbers.
