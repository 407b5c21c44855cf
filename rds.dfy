/** Model of `Rigol_DS1054Z.read_samples` in rds.py: the chunked read of a
    channel's waveform memory.  The instrument is abstracted as a `Device`
    that records every command it receives and answers a binary data query
    with `fetch(start, stop)` for the window last set. */
module Rds {
  import opened Errors
  import opened IteratorsGenerators

  /** An unsigned byte, the element type of a `datatype="B"` binary block. */
  type Byte = x: int | 0 <= x < 256

  /** Largest number of samples requested per window. */
  const MaxChunk := 750000

  /** Default number of samples to read: 24 * 10**6. */
  const DefaultSamples := 24 * 1000000

  const StopCommand := "stop"
  const OpcQuery := "*OPC?"
  const DataQuery := "waveform:data?"

  /** The message numpy raises when asked for a buffer of negative length. */
  const NegativeDimensions := "negative dimensions are not allowed"

  /** What the device receives: a plain write, the write that selects a
      sample window, a query whose text reply is read back, or a query whose
      binary block reply is read back.  `Text` gives the characters sent. */
  datatype Command =
    | Written(text: string)
    | WindowWritten(window: Interval)
    | Queried(text: string)
    | BinaryQueried(text: string)

  // ---------------------------------------------------------------------------
  // Formatting integers as Python's f-strings do
  // ---------------------------------------------------------------------------

  function Digit(d: nat): (c: char)
    requires d < 10
    ensures '0' <= c <= '9'
  {
    ('0' as int + d) as char
  }

  /** The decimal digits of `n`, most significant first, without leading
      zeros. */
  function Decimal(n: nat): (s: string)
    ensures 1 <= |s|
    ensures forall k :: 0 <= k < |s| ==> '0' <= s[k] <= '9'
    ensures n < 10 <==> |s| == 1
    ensures s[0] == '0' ==> n == 0
  {
    if n < 10 then [Digit(n)] else Decimal(n / 10) + [Digit(n % 10)]
  }

  /** `str(i)` for an integer: a minus sign before the digits of a negative
      number. */
  function IntToString(i: int): (s: string)
    ensures 1 <= |s|
    ensures s[0] == '-' <==> i < 0
    ensures forall k :: 0 <= k < |s| ==> s[k] == '-' || '0' <= s[k] <= '9'
    ensures forall k :: (if i < 0 then 1 else 0) <= k < |s| ==> '0' <= s[k] <= '9'
  {
    if i < 0 then "-" + Decimal(-i) else Decimal(i)
  }

  /** The value of a string of decimal digits, most significant first. */
  function DigitsValue(s: string): int
  {
    if s == [] then 0
    else 10 * DigitsValue(s[..|s| - 1]) + (s[|s| - 1] as int - '0' as int)
  }

  /** `int(s)` for an optional minus sign followed by decimal digits. */
  function ParseInt(s: string): int
  {
    if |s| > 0 && s[0] == '-' then -DigitsValue(s[1..]) else DigitsValue(s)
  }

  /** The digits of `Decimal(n)` denote `n`. */
  lemma {:induction false} DecimalValue(n: nat)
    ensures DigitsValue(Decimal(n)) == n
    decreases n
  {
    var s := Decimal(n);
    if n < 10 {
      assert s[..0] == [];
    } else {
      DecimalValue(n / 10);
      assert s[..|s| - 1] == Decimal(n / 10);
      assert s[|s| - 1] == Digit(n % 10);
    }
  }

  /** `int(str(i)) == i`: the text of an integer denotes that integer. */
  lemma IntToStringRoundTrip(i: int)
    ensures ParseInt(IntToString(i)) == i
  {
    if i < 0 {
      assert IntToString(i)[1..] == Decimal(-i);
      DecimalValue(-i);
    } else {
      DecimalValue(i);
    }
  }

  /** Different numbers have different decimal representations. */
  lemma {:induction false} DecimalInjective(a: nat, b: nat)
    requires Decimal(a) == Decimal(b)
    ensures a == b
    decreases a
  {
    if 10 <= a && 10 <= b {
      var s := Decimal(a);
      assert s[|s| - 1] == Digit(a % 10) && s[|s| - 1] == Digit(b % 10);
      assert s[..|s| - 1] == Decimal(a / 10) && s[..|s| - 1] == Decimal(b / 10);
      DecimalInjective(a / 10, b / 10);
    } else if a < 10 && b < 10 {
      assert Decimal(a)[0] == Digit(a) && Decimal(b)[0] == Digit(b);
    }
  }

  /** `str` is injective on integers. */
  lemma IntToStringInjective(a: int, b: int)
    requires IntToString(a) == IntToString(b)
    ensures a == b
  {
    if a < 0 && b < 0 {
      assert IntToString(a)[1..] == Decimal(-a);
      assert IntToString(b)[1..] == Decimal(-b);
      DecimalInjective(-a, -b);
    } else if 0 <= a && 0 <= b {
      DecimalInjective(a, b);
    }
  }

  // ---------------------------------------------------------------------------
  // The commands read_samples sends
  // ---------------------------------------------------------------------------

  /** The source/mode/format command as written in rds.py: a plain string
      literal, so the device receives the characters `{ch}` whatever the
      channel. */
  function AsWrittenSourceCommand(ch: int): (s: string)
    ensures |s| == |SourcePrefix| + 4 + |SourceSuffix|
    ensures s[..|SourcePrefix|] == SourcePrefix
    ensures s[|SourcePrefix|..|s| - |SourceSuffix|] == "{ch}"
    ensures s[|s| - |SourceSuffix|..] == SourceSuffix
  {
    var s := "waveform:source channel{ch};mode raw;format byte";
    assert s == SourcePrefix + "{ch}" + SourceSuffix;
    s
  }

  const SourcePrefix := "waveform:source channel"
  const SourceSuffix := ";mode raw;format byte"

  /** The source/mode/format command with the channel number interpolated,
      as the f-string `f"waveform:source channel{ch};mode raw;format byte"`
      would send it. */
  function SourceCommand(ch: int): (s: string)
    ensures |s| == |SourcePrefix| + |IntToString(ch)| + |SourceSuffix|
    ensures s[..|SourcePrefix|] == SourcePrefix
    ensures s[|SourcePrefix|..|s| - |SourceSuffix|] == IntToString(ch)
    ensures s[|s| - |SourceSuffix|..] == SourceSuffix
  {
    SourcePrefix + IntToString(ch) + SourceSuffix
  }

  /** With the channel interpolated, different channels select different
      sources. */
  lemma SourceCommandInjective(a: int, b: int)
    requires SourceCommand(a) == SourceCommand(b)
    ensures a == b
  {
    var s := SourceCommand(a);
    var p := |SourcePrefix|;
    assert s[p..|s| - |SourceSuffix|] == IntToString(a);
    assert SourceCommand(b)[p..|s| - |SourceSuffix|] == IntToString(b);
    IntToStringInjective(a, b);
  }

  /** As written, the source command is the same for every channel and is
      never the command that selects channel `ch`: where the channel number
      belongs it carries the character `{`. */
  lemma AsWrittenSourceCommandIgnoresChannel(ch: int)
    ensures AsWrittenSourceCommand(ch) == AsWrittenSourceCommand(1)
    ensures AsWrittenSourceCommand(ch) != SourceCommand(ch)
  {
    var p := |SourcePrefix|;
    assert AsWrittenSourceCommand(ch)[p] == '{';
    assert SourceCommand(ch)[p] == IntToString(ch)[0];
    if 0 <= ch {
      assert IntToString(ch)[0] == Decimal(ch)[0];
    }
  }

  /** `f"waveform:start {start};:waveform:stop {stop}"` for a chunk. */
  function WindowCommand(iv: Interval): (s: string)
    ensures |s| == |WindowPrefix| + |IntToString(iv.0)| + |WindowMiddle| + |IntToString(iv.1)|
    ensures s[..|WindowPrefix|] == WindowPrefix
    ensures s[|WindowPrefix|..|WindowPrefix| + |IntToString(iv.0)|] == IntToString(iv.0)
    ensures s[|s| - |IntToString(iv.1)| - |WindowMiddle|..|s| - |IntToString(iv.1)|] == WindowMiddle
    ensures s[|s| - |IntToString(iv.1)|..] == IntToString(iv.1)
  {
    WindowPrefix + IntToString(iv.0) + WindowMiddle + IntToString(iv.1)
  }

  /** The characters the device receives for a command. */
  function Text(c: Command): string
  {
    match c
    case Written(text) => text
    case WindowWritten(iv) => WindowCommand(iv)
    case Queried(text) => text
    case BinaryQueried(text) => text
  }

  const WindowPrefix := "waveform:start "
  const WindowMiddle := ";:waveform:stop "

  /** In `x + sep + y`, where `x` does not contain the separator's first
      character, that character first occurs right after `x`. */
  lemma FirstSeparator(x: string, sep: string, y: string)
    requires |sep| >= 1
    requires forall k :: 0 <= k < |x| ==> x[k] != sep[0]
    ensures (x + sep + y)[|x|] == sep[0]
    ensures forall k :: 0 <= k < |x| ==> (x + sep + y)[k] != sep[0]
  {
    var s := x + sep + y;
    forall k | 0 <= k < |x|
      ensures s[k] != sep[0]
    {
      assert s[k] == x[k];
    }
  }

  /** Two strings of the shape `pre + x + sep + y`, where neither `x` nor
      `x2` contains the separator's first character, split the same way. */
  lemma SplitAtSeparator(pre: string, x: string, y: string, x2: string, y2: string, sep: string)
    requires |sep| >= 1
    requires forall k :: 0 <= k < |x| ==> x[k] != sep[0]
    requires forall k :: 0 <= k < |x2| ==> x2[k] != sep[0]
    requires pre + x + sep + y == pre + x2 + sep + y2
    ensures x == x2 && y == y2
  {
    var s := x + sep + y;
    var s2 := x2 + sep + y2;
    assert (pre + x + sep + y)[|pre|..] == s;
    assert (pre + x2 + sep + y2)[|pre|..] == s2;
    FirstSeparator(x, sep, y);
    FirstSeparator(x2, sep, y2);
    assert |x| == |x2|;
    assert s[..|x|] == x && s2[..|x|] == x2;
    assert s[|x| + |sep|..] == y && s2[|x| + |sep|..] == y2;
  }

  /** Different windows are selected by different window commands, so a
      trace that records the window loses nothing of the text sent. */
  lemma WindowCommandInjective(a: Interval, b: Interval)
    requires Text(WindowWritten(a)) == Text(WindowWritten(b))
    ensures a == b
  {
    var x, y := IntToString(a.0), IntToString(a.1);
    var x2, y2 := IntToString(b.0), IntToString(b.1);
    assert WindowMiddle[0] == ';';
    SplitAtSeparator(WindowPrefix, x, y, x2, y2, WindowMiddle);
    IntToStringInjective(a.0, b.0);
    IntToStringInjective(a.1, b.1);
  }

  /** The three commands sent before any chunk is requested: halt the
      acquisition, wait for it to finish, select the source and the format. */
  function Preamble(ch: int): (t: seq<Command>)
    ensures |t| == 3
    ensures forall k :: 0 <= k < |t| ==> t[k].Written? || t[k].Queried?
    ensures t[|t| - 1] == Written(SourceCommand(ch))
  {
    [Written(StopCommand), Queried(OpcQuery), Written(SourceCommand(ch))]
  }

  /** The three commands as rds.py writes them, with the literal source
      command. */
  function AsWrittenPreamble(ch: int): (t: seq<Command>)
    ensures |t| == 3
    ensures t[|t| - 1] == Written(AsWrittenSourceCommand(ch))
  {
    [Written(StopCommand), Queried(OpcQuery), Written(AsWrittenSourceCommand(ch))]
  }

  /** The preamble the model sends and the one rds.py sends agree on the
      halt and the wait, and differ exactly in the source command, which as
      written is the same for every channel. */
  lemma PreambleDiffersOnlyInSource(ch: int)
    ensures Preamble(ch)[..2] == AsWrittenPreamble(ch)[..2]
    ensures Preamble(ch)[2] != AsWrittenPreamble(ch)[2]
    ensures AsWrittenPreamble(ch) == AsWrittenPreamble(1)
  {
    AsWrittenSourceCommandIgnoresChannel(ch);
  }

  /** The commands for a sequence of chunks: per chunk, the window command
      followed by the data query. */
  function ChunkCommands(plan: seq<Interval>): seq<Command>
  {
    if plan == [] then []
    else
      var last := plan[|plan| - 1];
      ChunkCommands(plan[..|plan| - 1]) + [WindowWritten(last), BinaryQueried(DataQuery)]
  }

  /** Two commands per chunk. */
  lemma {:induction false} ChunkCommandsLength(plan: seq<Interval>)
    ensures |ChunkCommands(plan)| == 2 * |plan|
    decreases |plan|
  {
    if plan != [] {
      ChunkCommandsLength(plan[..|plan| - 1]);
    }
  }

  /** The chunk commands alternate: the window command of chunk `j` sits at
      position `2 * j` and the data query that follows it at `2 * j + 1`;
      nothing else is sent. */
  lemma {:induction false} ChunkCommandsAt(plan: seq<Interval>, j: int)
    requires 0 <= j < |plan|
    ensures |ChunkCommands(plan)| == 2 * |plan|
    ensures ChunkCommands(plan)[2 * j] == WindowWritten(plan[j])
    ensures ChunkCommands(plan)[2 * j + 1] == BinaryQueried(DataQuery)
    decreases |plan|
  {
    var front := plan[..|plan| - 1];
    var pair := [WindowWritten(plan[|plan| - 1]), BinaryQueried(DataQuery)];
    ChunkCommandsLength(plan);
    ChunkCommandsLength(front);
    assert ChunkCommands(plan) == ChunkCommands(front) + pair;
    if j < |plan| - 1 {
      ChunkCommandsAt(front, j);
      assert front[j] == plan[j];
      assert ChunkCommands(plan)[2 * j] == ChunkCommands(front)[2 * j];
      assert ChunkCommands(plan)[2 * j + 1] == ChunkCommands(front)[2 * j + 1];
    } else {
      assert ChunkCommands(plan)[2 * j] == pair[0];
      assert ChunkCommands(plan)[2 * j + 1] == pair[1];
    }
  }

  // ---------------------------------------------------------------------------
  // The assembled buffer
  // ---------------------------------------------------------------------------

  /** Every window is answered with one byte per sample it covers. */
  ghost predicate BlocksFit(fetch: (int, int) -> seq<Byte>)
  {
    forall lo, hi :: lo <= hi ==> |fetch(lo, hi)| == hi - lo + 1
  }

  /** The blocks fetched for a sequence of chunks, concatenated in order. */
  function Assemble(fetch: (int, int) -> seq<Byte>, plan: seq<Interval>): seq<Byte>
  {
    if plan == [] then []
    else
      var last := plan[|plan| - 1];
      Assemble(fetch, plan[..|plan| - 1]) + fetch(last.0, last.1)
  }

  /** A tiling of [start, end], all but its last interval. */
  lemma TilesFront(plan: seq<Interval>, start: int, end: int)
    requires Tiles(plan, start, end) && |plan| >= 2
    ensures Tiles(plan[..|plan| - 1], start, plan[|plan| - 2].1)
    ensures plan[|plan| - 1].0 == plan[|plan| - 2].1 + 1
  {
  }

  /** The blocks of a tiling of [start, end] assemble to one sample per
      position of the range. */
  lemma {:induction false} AssembleLength(fetch: (int, int) -> seq<Byte>, plan: seq<Interval>, start: int, end: int)
    requires BlocksFit(fetch) && Tiles(plan, start, end)
    ensures |Assemble(fetch, plan)| == end - start + 1
    decreases |plan|
  {
    var last := plan[|plan| - 1];
    assert |fetch(last.0, last.1)| == last.1 - last.0 + 1;
    if |plan| >= 2 {
      TilesFront(plan, start, end);
      AssembleLength(fetch, plan[..|plan| - 1], start, plan[|plan| - 2].1);
    }
  }

  /** Position `x` of the range [start, end] of the assembled buffer holds
      the sample that the block of the chunk containing `x` holds for it. */
  lemma {:induction false} AssembleAt(fetch: (int, int) -> seq<Byte>, plan: seq<Interval>, start: int, end: int, j: int, x: int)
    requires BlocksFit(fetch) && Tiles(plan, start, end)
    requires 0 <= j < |plan| && plan[j].0 <= x <= plan[j].1
    ensures start <= x <= end
    ensures |Assemble(fetch, plan)| == end - start + 1
    ensures |fetch(plan[j].0, plan[j].1)| == plan[j].1 - plan[j].0 + 1
    ensures Assemble(fetch, plan)[x - start] == fetch(plan[j].0, plan[j].1)[x - plan[j].0]
    decreases |plan|
  {
    TilesWithin(plan, start, end, j);
    AssembleLength(fetch, plan, start, end);
    var last := plan[|plan| - 1];
    var front := plan[..|plan| - 1];
    if |plan| == 1 {
      assert Assemble(fetch, plan) == [] + fetch(last.0, last.1);
    } else {
      TilesFront(plan, start, end);
      AssembleLength(fetch, front, start, plan[|plan| - 2].1);
      if j < |plan| - 1 {
        TilesOrdered(plan, start, end, j, |plan| - 1);
        AssembleAt(fetch, front, start, plan[|plan| - 2].1, j, x);
        assert front[j] == plan[j];
      }
    }
  }

  /** Taking one more chunk of a plan appends its two commands to the
      trace. */
  lemma TraceStep(t0: seq<Command>, plan: seq<Interval>, j: int)
    requires 0 <= j < |plan|
    ensures t0 + ChunkCommands(plan[..j]) + [WindowWritten(plan[j]), BinaryQueried(DataQuery)]
            == t0 + ChunkCommands(plan[..j + 1])
  {
    assert plan[..j + 1][..j] == plan[..j];
  }

  /** Taking one more chunk of a plan appends its block to the assembled
      buffer: writing that block right after the filled prefix of a buffer
      whose rest is zero extends the prefix and keeps the rest zero. */
  lemma FillStep(fetch: (int, int) -> seq<Byte>, plan: seq<Interval>, j: int, prev: seq<int>, next: seq<int>, filled: nat, upto: nat)
    requires 0 <= j < |plan|
    requires filled + |fetch(plan[j].0, plan[j].1)| == upto <= |prev|
    requires prev == Assemble(fetch, plan[..j]) + Zeros(|prev| - filled)
    requires next == prev[..filled] + fetch(plan[j].0, plan[j].1) + prev[upto..]
    ensures next == Assemble(fetch, plan[..j + 1]) + Zeros(|prev| - upto)
  {
    var block := fetch(plan[j].0, plan[j].1);
    assert plan[..j + 1][..j] == plan[..j];
    assert Assemble(fetch, plan[..j + 1]) == Assemble(fetch, plan[..j]) + block;
    assert prev[..filled] == Assemble(fetch, plan[..j]);
    assert prev[upto..] == Zeros(|prev| - upto);
  }

  /** `n` zeros, the initial contents of `np.zeros(n)`. */
  function Zeros(n: nat): (z: seq<int>)
    ensures |z| == n
  {
    seq(n, _ => 0)
  }

  /** Every position of `Zeros(n)` holds 0, and its multiset of values has
      `n` zeros and nothing else. */
  lemma {:induction false} ZerosAllZero(n: nat)
    ensures forall k :: 0 <= k < n ==> Zeros(n)[k] == 0
    ensures multiset(Zeros(n)) == multiset{}[0 := n]
  {
    if n > 0 {
      ZerosAllZero(n - 1);
      assert Zeros(n) == Zeros(n - 1) + [0];
    }
  }

  /** `samples_raw[from:from + len(block)] = block`: the slice is replaced by
      the block and every other element is left as it was. */
  method WriteSlice(a: array<int>, from: nat, block: seq<Byte>)
    requires from + |block| <= a.Length
    modifies a
    ensures a[..] == old(a[..from]) + block + old(a[from + |block|..])
  {
    var k := 0;
    while k < |block|
      invariant 0 <= k <= |block|
      invariant forall t :: 0 <= t < from ==> a[t] == old(a[t])
      invariant forall t :: from <= t < from + k ==> a[t] == block[t - from]
      invariant forall t :: from + k <= t < a.Length ==> a[t] == old(a[t])
    {
      a[from + k] := block[k];
      k := k + 1;
    }
    assert a[..] == old(a[..from]) + block + old(a[from + |block|..]) by {
      var s := old(a[..from]) + block + old(a[from + |block|..]);
      assert |s| == a.Length;
      forall t | 0 <= t < a.Length
        ensures a[t] == s[t]
      {
        if t < from {
        } else if t < from + |block| {
        } else {
          assert s[t] == old(a[from + |block|..])[t - from - |block|];
        }
      }
    }
  }

  // ---------------------------------------------------------------------------
  // The instrument and the driver class
  // ---------------------------------------------------------------------------

  /** The instrument at the other end of the VISA link: the commands it has
      received, the sample window last selected, and the binary block it
      returns for a window. */
  class Device {
    var trace: seq<Command>
    var window: Interval
    const fetch: (int, int) -> seq<Byte>

    constructor (fetch: (int, int) -> seq<Byte>)
      ensures this.fetch == fetch && trace == []
    {
      this.fetch := fetch;
      trace := [];
      window := (1, 1);
    }

    /** `dev.write(text)`. */
    method Write(text: string)
      modifies this`trace
      ensures trace == old(trace) + [Written(text)]
    {
      trace := trace + [Written(text)];
    }

    /** `dev.query(text)`; the reply is not used by the modelled code. */
    method Query(text: string)
      modifies this`trace
      ensures trace == old(trace) + [Queried(text)]
    {
      trace := trace + [Queried(text)];
    }

    /** `dev.write` of the window command for `iv`, which makes `iv` the
        window the next data query returns. */
    method SetWindow(iv: Interval)
      modifies this`trace, this`window
      ensures trace == old(trace) + [WindowWritten(iv)]
      ensures window == iv
    {
      trace := trace + [WindowWritten(iv)];
      window := iv;
    }

    /** `dev.query_binary_values(text, datatype="B")`: the block of unsigned
        bytes for the current window. */
    method QueryBinaryValues(text: string) returns (block: seq<Byte>)
      modifies this`trace
      ensures trace == old(trace) + [BinaryQueried(text)]
      ensures block == fetch(window.0, window.1)
    {
      trace := trace + [BinaryQueried(text)];
      block := fetch(window.0, window.1);
    }
  }

  /** Remote control and data transfer for a Rigol DS1054Z. */
  class RigolDS1054Z {
    const dev: Device
    const nChannels: int

    constructor (dev: Device, nChannels: int := 4)
      ensures this.dev == dev && this.nChannels == nChannels
    {
      this.dev := dev;
      this.nChannels := nChannels;
    }

    /** Reads `nSamples` samples of channel `ch`, in chunks of at most
        `MaxChunk` samples, into a fresh zero-filled buffer. */
    method ReadSamples(ch: int, nSamples: int := DefaultSamples) returns (r: Result<array<int>>)
      requires BlocksFit(dev.fetch)
      modifies dev
      ensures r.Err? <==> nSamples < 1
      ensures nSamples < 0 ==> r == Err(ValueError(NegativeDimensions))
      ensures nSamples == 0 ==> r == Err(AssertionError(BadArguments))
      ensures r.Err? ==> dev.trace == old(dev.trace) + Preamble(ch)
      ensures r.Ok? ==>
                var plan := Slices(1, nSamples, MaxChunk);
                && fresh(r.value)
                && r.value.Length == nSamples
                && r.value[..] == Assemble(dev.fetch, plan)
                && (forall k :: 0 <= k < nSamples ==> 0 <= r.value[k] < 256)
                && dev.trace == old(dev.trace) + Preamble(ch) + ChunkCommands(plan)
    {
      dev.Write(StopCommand);
      dev.Query(OpcQuery);
      dev.Write(SourceCommand(ch));
      assert dev.trace == old(dev.trace) + Preamble(ch);
      if nSamples < 0 {
        return Err(ValueError(NegativeDimensions));
      }
      var samples := new int[nSamples](_ => 0);
      assert samples[..] == Zeros(nSamples);
      var chunks := SliceRange(1, nSamples, MaxChunk);
      if chunks.Err? {
        return Err(chunks.error);
      }
      ReadChunks(chunks.value, samples);
      return Ok(samples);
    }

    /** One iteration of the `for` loop of `read_samples`: select the window
        `iv`, query its block and copy it into positions `iv.0 - 1 .. iv.1 - 1`
        of the buffer, leaving every other position as it was. */
    method ReadChunk(iv: Interval, samples: array<int>)
      requires BlocksFit(dev.fetch)
      requires 1 <= iv.0 <= iv.1 <= samples.Length
      modifies dev, samples
      ensures dev.trace == old(dev.trace) + [WindowWritten(iv), BinaryQueried(DataQuery)]
      ensures samples[..] == old(samples[..iv.0 - 1]) + dev.fetch(iv.0, iv.1) + old(samples[iv.1..])
    {
      dev.SetWindow(iv);
      var block := dev.QueryBinaryValues(DataQuery);
      assert |block| == iv.1 - iv.0 + 1;
      WriteSlice(samples, iv.0 - 1, block);
    }

    /** The `for` loop of `read_samples`: for each chunk of the plan, select
        its window, query its block and copy the block into its slice of the
        zero-filled buffer, in ascending order. */
    method ReadChunks(plan: seq<Interval>, samples: array<int>)
      requires Tiles(plan, 1, samples.Length)
      requires BlocksFit(dev.fetch)
      requires samples[..] == Zeros(samples.Length)
      modifies dev, samples
      ensures samples[..] == Assemble(dev.fetch, plan)
      ensures dev.trace == old(dev.trace) + ChunkCommands(plan)
    {
      ghost var t0 := dev.trace;
      ghost var fetched: seq<Byte> := [];
      ghost var sent: seq<Command> := [];
      var j := 0;
      var filled := 0;
      while j < |plan|
        invariant 0 <= j <= |plan|
        invariant filled == if j == 0 then 0 else plan[j - 1].1
        invariant 0 <= filled <= samples.Length
        invariant j < |plan| ==> plan[j].0 == filled + 1
        invariant samples[..] == fetched + Zeros(samples.Length - filled)
        invariant fetched == Assemble(dev.fetch, plan[..j])
        invariant dev.trace == t0 + sent
        invariant sent == ChunkCommands(plan[..j])
      {
        var iv := plan[j];
        TilesWithin(plan, 1, samples.Length, j);
        ghost var prev := samples[..];
        ReadChunk(iv, samples);
        ghost var next := samples[..];
        assert |dev.fetch(iv.0, iv.1)| == iv.1 - filled;
        TraceStep(t0, plan, j);
        FillStep(dev.fetch, plan, j, prev, next, filled, iv.1);
        fetched := Assemble(dev.fetch, plan[..j + 1]);
        sent := ChunkCommands(plan[..j + 1]);
        j := j + 1;
        filled := iv.1;
      }
      assert plan[..j] == plan;
      assert samples[..] == Assemble(dev.fetch, plan) + [];
    }
  }

  /** With the default number of samples the read takes 32 windows of exactly
      `MaxChunk` samples each. */
  lemma DefaultPlan()
    ensures |Slices(1, DefaultSamples, MaxChunk)| == 32
    ensures forall j :: 0 <= j < 32 ==> Size(Slices(1, DefaultSamples, MaxChunk)[j]) == MaxChunk
  {
    SlicesIsChunkPlan(1, DefaultSamples, MaxChunk);
    SlicesExactMultiple(1, DefaultSamples, MaxChunk, 32);
  }

  /** Reading 2 000 000 samples takes three windows, and the buffer is the
      three blocks one after the other. */
  lemma TwoMillionSamples(fetch: (int, int) -> seq<Byte>)
    ensures Slices(1, 2000000, MaxChunk) == [(1, 750000), (750001, 1500000), (1500001, 2000000)]
    ensures Assemble(fetch, Slices(1, 2000000, MaxChunk))
            == fetch(1, 750000) + fetch(750001, 1500000) + fetch(1500001, 2000000)
  {
    var plan := [(1, 750000), (750001, 1500000), (1500001, 2000000)];
    assert Slices(1500001, 2000000, MaxChunk) == [(1500001, 2000000)];
    assert Slices(750001, 2000000, MaxChunk) == [(750001, 1500000)] + Slices(1500001, 2000000, MaxChunk);
    assert Slices(1, 2000000, MaxChunk) == [(1, 750000)] + Slices(750001, 2000000, MaxChunk);
    assert Slices(1, 2000000, MaxChunk) == plan;
    assert plan[..2][..1] == [(1, 750000)];
    assert plan[..2] == [(1, 750000), (750001, 1500000)];
    assert Assemble(fetch, plan[..1]) == [] + fetch(1, 750000);
  }
}
