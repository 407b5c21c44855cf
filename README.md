# hdscope: chunked waveform read, modelled in Dafny

This project models the one algorithmic part of hdscope, a remote-control
application for Rigol DS1000Z and Rohde & Schwarz RTH oscilloscopes: the
chunked read of a channel's waveform memory from a Rigol DS1054Z, and the
range-slicing generator that plans the chunks.

- `iterators_generators.dfy`, module `IteratorsGenerators`: `slice_range(start,
  end, n_each)` is modelled by the sequence of closed intervals it yields.
  `Slices` follows the generator step by step. The stepped `for` loop yields
  `(i, i + n - 1)` while `i + n` is inside `range(.., end + 1, ..)`. The
  trailing `yield` then emits the leftover cursor up to `end`. `SliceRange`
  adds the guarding assertion, which fails before anything is yielded.
  `IsChunkPlan` is an independent, declarative description of a chunk plan.
  The lemmas prove that `Slices` meets it and is the only sequence that does.
  They also prove its count (a ceiling), its behaviour on exact multiples and
  small ranges, and that it covers the range exactly once in ascending order.
- `rds.dfy`, module `Rds`: `Rigol_DS1054Z.read_samples` becomes
  `RigolDS1054Z.ReadSamples`, a method over a zero-filled `array<int>`. The
  instrument is a `Device` object with three parts:
  - `trace`, the commands it has received;
  - `window`, the sample window last selected;
  - `fetch(start, stop)`, the block of unsigned bytes that the data query
    returns for a window.

  The loop is `ReadChunks`. It copies each block into its slice of the
  buffer (`WriteSlice`, the numpy slice assignment), in ascending order. It
  is proved to leave the buffer equal to `Assemble`, the in-order
  concatenation of the fetched blocks. The trace it leaves is the three
  preamble commands followed by one window command and one data query per
  chunk. The trace records a window command as the window it selects;
  `WindowCommand` gives its text, and `WindowCommandInjective` shows the two
  carry the same information.
- `errors.dfy`, module `Errors`: the Python exceptions raised on the error
  paths (`AssertionError` from `slice_range`, `ValueError` from `np.zeros`),
  carried in a `Result`.

## Model

| member | source | states |
|---|---|---|
| IteratorsGenerators.Slices | iterators_generators.py:15-18 | the generator's output is never empty, its first interval starts at `i` and its last interval ends at `end` |
| IteratorsGenerators.SlicesIsChunkPlan | iterators_generators.py:15-18 | the loop and the trailing `yield` produce a chunk plan for [i, end]: non-empty, contiguous intervals from `i` to `end`, all of `n` integers but the last, which has 1 to `n` |
| IteratorsGenerators.SliceRange | iterators_generators.py:2-18 | fails with an `AssertionError` exactly when `end < start` or `n_each <= 0`, and otherwise yields a chunk plan for [start, end] |
| IteratorsGenerators.SlicesCount | iterators_generators.py:16-18 | the number of intervals `c` is ceil((end - start + 1) / n): `(c - 1) * n < end - start + 1 <= c * n` |
| IteratorsGenerators.SlicesExactMultiple | iterators_generators.py:16-18 | when the range holds exactly `m * n` integers there are exactly `m` intervals and the last one, from the trailing `yield`, is the full chunk `(end - n + 1, end)`: no empty or duplicate interval |
| IteratorsGenerators.SlicesSingle | iterators_generators.py:15-18 | the output is exactly `[(start, end)]` if and only if the range holds at most `n` integers (the loop body never runs) |
| IteratorsGenerators.TilesOrdered | iterators_generators.py:3-8 | in a tiling, every interval ends before any later interval starts: ascending and non-overlapping |
| IteratorsGenerators.TilesWithin | iterators_generators.py:3-8 | every interval of a tiling of [start, end] lies inside [start, end], the next one starts right after it, and the last one ends at `end` |
| IteratorsGenerators.ChunkPlanUnique | iterators_generators.py:3-8 | any sequence of intervals that tiles [start, end] in chunks of `n` with the residual last is the sequence the generator yields |
| IteratorsGenerators.ChunkPlanAt | iterators_generators.py:16-18 | interval `j` of a chunk plan starts at `start + j * n`, ends `n - 1` later unless it is the last, and the last ends at `end` |
| IteratorsGenerators.TilesFlatten | iterators_generators.py:3-8 | the integers of the intervals, taken in turn, are exactly start, start + 1, ..., end: the range is covered once, in order |
| IteratorsGenerators.DocstringExample | iterators_generators.py:12 | `slice_range(-1, 7, 4)` yields `[(-1, 2), (3, 6), (7, 7)]` |
| IteratorsGenerators.BoundaryExamples | iterators_generators.py:14-18 | `(0, 3, 4)` yields `[(0, 3)]`; `(1, 8, 4)` yields `[(1, 4), (5, 8)]`; `(5, 2, 4)` and `(0, 10, 0)` fail the assertion |
| Rds.RigolDS1054Z.constructor | rds.py:31-33 | the driver keeps its device and its number of channels |
| Rds.Device.Write | rds.py:44 | a write appends exactly that command to the device's trace |
| Rds.Device.Query | rds.py:46 | a text query appends exactly that command to the trace |
| Rds.Device.SetWindow | rds.py:51 | the window command for a chunk is appended to the trace and becomes the device's current window |
| Rds.Device.QueryBinaryValues | rds.py:52-57 | the binary query is appended to the trace and answered with the unsigned-byte block for the current window |
| Rds.Decimal | rds.py:51 | the decimal digits of a natural number: non-empty, digits only, one digit exactly below 10, and no leading zero (a first `0` only for the number 0) |
| Rds.DecimalValue | rds.py:51 | the digits of `Decimal(n)`, read back most significant first, denote `n` |
| Rds.IntToString | rds.py:51 | `str()` of an integer inside an f-string: non-empty, a leading `-` exactly for negative numbers, and decimal digits only after the sign |
| Rds.IntToStringRoundTrip | rds.py:51 | `int(str(i)) == i` for every integer: the text sent denotes the window bound or channel interpolated |
| Rds.AsWrittenSourceCommand | rds.py:48 | the literal command is the prefix `waveform:source channel`, then the four characters `{ch}` where the channel belongs, then `;mode raw;format byte` |
| Rds.SourceCommand | rds.py:48 | the intended command is the prefix `waveform:source channel`, then exactly the channel's decimal representation, then `;mode raw;format byte` |
| Rds.WindowCommand | rds.py:51 | `waveform:start `, the decimal start, `;:waveform:stop `, the decimal stop, in that order and nothing else |
| Rds.WindowCommandInjective | rds.py:51 | the text sent for different windows differs, so recording the window in the trace loses nothing of the text sent |
| Rds.SourceCommandInjective | rds.py:48 | with the channel interpolated, different channels give different source commands |
| Rds.AsWrittenSourceCommandIgnoresChannel | rds.py:48 | the command as written is the same for every channel and never equals the command selecting that channel |
| Rds.Preamble | rds.py:44-48 | three commands come before any chunk, none of them a window command or a data query, and the last is the intended source command (the corrected one, see Findings), not the literal rds.py:48 sends |
| Rds.AsWrittenPreamble | rds.py:44-48 | the three commands as written end with the literal source command |
| Rds.PreambleDiffersOnlyInSource | rds.py:44-48 | the modelled preamble and the one rds.py sends agree on `stop` and `*OPC?`, differ in the source command, and the one as written is the same for every channel |
| Rds.ChunkCommandsLength | rds.py:50-57 | the chunk loop sends exactly two commands per chunk |
| Rds.ChunkCommandsAt | rds.py:50-57 | for chunk `j`, its window command is command `2j` of the loop and the data query `waveform:data?` is command `2j + 1`; chunks are requested in plan order |
| Rds.AssembleLength | rds.py:49-57 | the blocks of a tiling of [start, end] assemble to exactly `end - start + 1` samples |
| Rds.AssembleAt | rds.py:52 | sample `x` of the assembled buffer is the sample for `x` in the block of the chunk that contains `x` |
| Rds.TraceStep | rds.py:50-57 | one more chunk appends exactly its window command and its data query to the commands of the earlier chunks |
| Rds.FillStep | rds.py:50-57 | copying the next chunk's block over the zeros after the filled prefix extends the filled prefix by that block and leaves the rest zero |
| Rds.RigolDS1054Z.ReadChunk | rds.py:51-57 | one chunk: its window command and the data query are appended to the trace, positions `start - 1 .. stop - 1` of the buffer become the fetched block and no other position changes |
| Rds.Zeros | rds.py:49 | `np.zeros(n)` has exactly `n` positions |
| Rds.ZerosAllZero | rds.py:49 | every position of `np.zeros(n)` is 0: its values are `n` zeros and nothing else |
| Rds.WriteSlice | rds.py:52 | slice assignment: positions `from .. from + len(block) - 1` become the block and no other position changes |
| Rds.RigolDS1054Z.ReadChunks | rds.py:50-57 | starting from a zero buffer, the loop leaves the buffer equal to the in-order concatenation of the fetched blocks, and appends to the trace one window command and one data query per chunk, in ascending order |
| Rds.RigolDS1054Z.ReadSamples | rds.py:38-61 | sends `stop`, `*OPC?` and the source command (the corrected one, see Findings) first. A negative count then raises `ValueError` and a zero count the `slice_range` assertion. Otherwise the result is a fresh buffer of exactly `n_samples` bytes (each 0..255): the blocks of `slice_range(1, n_samples, 750000)` in order, with the matching window and data-query commands in the trace |
| Rds.DefaultPlan | rds.py:38-50 | with the default `n_samples = 24 * 10**6` the read takes exactly 32 windows of exactly 750000 samples each |
| Rds.TwoMillionSamples | rds.py:50-57 | reading 2000000 samples takes windows `(1, 750000)`, `(750001, 1500000)`, `(1500001, 2000000)`, and the buffer is their three blocks in order |

## Findings

| source | as written | input that shows it | evidently intended | confidence | as-written member | corrected member |
|---|---|---|---|---|---|---|
| rds.py:48 | `"waveform:source channel{ch};mode raw;format byte"` is a plain string, not an f-string, so the instrument receives the characters `{ch}` | any channel, e.g. `ch = 1`: the command sent is `waveform:source channel{ch};mode raw;format byte`, not `waveform:source channel1;...` | the channel number is interpolated, as in the window command at rds.py:51 | high (not executed) | Rds.AsWrittenSourceCommandIgnoresChannel | Rds.SourceCommandInjective |

`ReadSamples` sends the corrected command `SourceCommand(ch)`. Apart from
that one string, its trace is what the code sends; `AsWrittenPreamble` is the
preamble rds.py sends, and `PreambleDiffersOnlyInSource` relates the two.

## Left out

- VISA setup is not modelled: the `__init__` resource manager, terminations,
  timeout, `idn`, and the module-level instance at rds.py:103. The device is
  only the `Device` abstraction.
- `*OPC?` reply: the reply to the query is not modelled, because
  `read_samples` discards it.
- Binary block decoding is not modelled. PyVISA parses the definite-length
  block (section 8.7.9 of IEEE 488.2), and the model has only the decoded
  bytes, `fetch`.
- `Rds.RigolDS1054Z.ReadSamples`: its trace carries the corrected source
  command `SourceCommand(ch)` (channel interpolated) where rds.py:48 sends the
  literal `waveform:source channel{ch};mode raw;format byte`. The ensured trace
  is therefore the intended one, not the one the code produces; the two differ
  only in that third command (`PreambleDiffersOnlyInSource`).
- `Rds.RigolDS1054Z.ReadSamples`: requires `BlocksFit`, which says every
  window is answered with exactly one byte per sample. The code does no
  length check. numpy raises on a length mismatch and broadcasts a
  one-element block, and neither is modelled.
- `Rds.RigolDS1054Z.ReadSamples`: the docstring of `read_samples`
  (rds.py:39-42) promises samples in scaled, offset-corrected physical units,
  usually volts. The code returns the raw unsigned bytes, with no scaling or
  offset, so the model ensures values in 0..255 and does not meet that
  promise. Scaling happens only in rth.py, which is not part of this model.
- The numpy buffer holds float64 values. The model uses `array<int>` because
  every value written is an integral byte and the zeros are integral too.
- The generator is modelled by its finished output. Laziness, and
  restarting it, are not modelled; this is faithful because the assertion
  fails before the first interval is produced.
- `read_samples` always sends `stop`, never restores the acquisition mode
  afterwards, never checks block lengths and uses a fixed chunk of 750000.
  The model does the same.
- Transport faults raised by PyVISA during a write or query are not modelled:
  the device never fails.
- `downsample_average`, `moving_average1..4` (rds.py:63-95 and their copies)
  and the scaling in rth.py are not modelled. They are floating-point numerics
  delegated to numpy, scipy and pandas.
- rth.py's `read_samples` is not modelled. It is device I/O plus float
  scaling.
- hdscope.py and mplwidget.py are not modelled. They are Qt and matplotlib
  GUI wiring.
