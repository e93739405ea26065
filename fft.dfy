/**
 * The FFT engine of archi/src/fft.rs: the twiddle/index lookup table and the
 * schedule of GPU passes that `Fft::render` issues.
 *
 * The table has one column per butterfly stage and one row per texel row.
 * The cosine and sine channels of a texel are functions of the twiddle
 * exponent k alone (angle 2*pi*k/size), so a texel is modelled by k and the
 * two butterfly indices.
 */
module Fft {
  import opened Bits
  import opened Wrappers
  import opened Seqs

  /** 2^24: up to here every integer, and so every value of the table loop, is exact in f32. */
  const MaxExactSize: nat := 0x100_0000
  const MaxStages: nat := 24

  /** A power of two for which every f32 value of the table loop is exact. */
  predicate ExactSize(size: nat)
  {
    1 <= size <= MaxExactSize && Pow2(Log2Floor(size)) == size
  }

  lemma Pow2OfMaxStages()
    ensures Pow2(MaxStages) == MaxExactSize
  {
    assert Pow2(8) == 256;
    Pow2Add(8, 8);
    Pow2Add(16, 8);
  }

  /** Tables of up to 2^24 rows: every row index fits in a u32. */
  lemma StagesBound(stages: nat)
    requires stages <= MaxStages
    ensures Pow2(stages) <= MaxExactSize < U32Limit
  {
    Pow2OfMaxStages();
    Pow2Monotone(stages, MaxStages);
  }

  /** The exact sizes are the powers 2^0 .. 2^24. */
  lemma ExactSizeBounds(size: nat)
    requires ExactSize(size)
    ensures Log2Floor(size) <= MaxStages && size < U32Limit
  {
    var s := Log2Floor(size);
    Pow2OfMaxStages();
    if s > MaxStages {
      Pow2Monotone(MaxStages + 1, s);
      assert false;
    }
  }

  lemma ExactSizeOfStages(stages: nat)
    requires stages <= MaxStages
    ensures ExactSize(Pow2(stages)) && Log2Floor(Pow2(stages)) == stages
  {
    StagesBound(stages);
    Log2OfPow2(stages);
  }

  /** One texel: twiddle exponent k, then the two butterfly input indices. */
  datatype Texel = Texel(k: nat, u: nat, v: nat)

  /** The `reverse` closure: `i.reverse_bits().rotate_left(stages)`. */
  function ReverseIndex(i: nat, stages: nat): nat
    requires i < U32Limit && stages < 32
  {
    RotateLeft32(ReverseBits32(i), stages)
  }

  lemma ModBelow(y: nat, d: nat)
    requires d >= 1
    ensures y % d <= y
  {
  }

  /**
   * The butterfly pair of row y at a stage of half-width span: (y, y + span)
   * when y is in the top wing of its group of span * 2 rows, else (y - span, y).
   */
  function WingPair(y: nat, span: nat): (p: (nat, nat))
    requires span >= 1
    ensures p.1 == p.0 + span
    ensures p.0 % (span * 2) < span
    ensures y == p.0 || y == p.1
  {
    var index := span * 2;
    ModBelow(y, index);
    if y % index < span then (y, y + span)
    else
      DivModUnique(y - span, index, y / index, y % index - span);
      (y - span, y)
  }

  /** `(y * size / index) % size`, the f32 expression of the loop read exactly. */
  function Exponent(y: nat, size: nat, index: nat): nat
    requires size >= 1 && index >= 1
  {
    (y * size / index) % size
  }

  /**
   * `(twiddle_u, twiddle_v)` for stage x and row y of the table of 2^stages
   * rows: the butterfly pair, put through `reverse` at stage 0.
   */
  function TwiddlePair(stages: nat, x: nat, y: nat): (nat, nat)
    requires x < stages <= MaxStages && y < Pow2(stages)
  {
    StagesBound(stages);
    var (u, v) := WingPair(y, Pow2(x));
    if x == 0 then (ReverseIndex(u, stages), ReverseIndex(v, stages)) else (u, v)
  }

  /** The texel the table loop pushes for stage x and row y. */
  function TexelAt(stages: nat, x: nat, y: nat): Texel
    requires x < stages <= MaxStages && y < Pow2(stages)
  {
    var (u, v) := TwiddlePair(stages, x, y);
    Texel(Exponent(y, Pow2(stages), Pow2(x) * 2), u, v)
  }

  /** Row y of the table: the texels of stages 0 .. stages - 1. */
  function TableRow(stages: nat, y: nat): (row: seq<Texel>)
    requires stages <= MaxStages && y < Pow2(stages)
    ensures |row| == stages
  {
    seq(stages, x requires 0 <= x < stages => TexelAt(stages, x, y))
  }

  /** The rows of the table, y = 0 .. 2^stages - 1. */
  function Rows(stages: nat): (rows: seq<seq<Texel>>)
    requires stages <= MaxStages
    ensures |rows| == Pow2(stages)
  {
    seq(Pow2(stages), y requires 0 <= y < Pow2(stages) => TableRow(stages, y))
  }

  /** The whole table the engine uploads: its rows, row y = 0 first. */
  function Table(stages: nat): seq<Texel>
    requires stages <= MaxStages
  {
    Flatten(Rows(stages))
  }

  /**
   * `twiddle_indices`: stages = log2(size), then rows y outer, stages x
   * inner, one texel pushed per (y, x).
   */
  method TwiddleIndices(size: nat) returns (stages: nat, pixels: seq<Texel>)
    requires ExactSize(size)
    ensures stages == Log2Floor(size) <= MaxStages && size == Pow2(stages)
    ensures pixels == Table(stages)
  {
    ExactSizeBounds(size);
    stages := Log2Floor(size);
    var width := stages;
    var height := size;
    pixels := [];
    var y := 0;
    while y < height
      invariant 0 <= y <= height
      invariant pixels == Flatten(Rows(stages)[..y])
    {
      var x := 0;
      while x < width
        invariant 0 <= x <= width
        invariant pixels == Flatten(Rows(stages)[..y]) + TableRow(stages, y)[..x]
      {
        var span := Pow2(x);
        var index := span * 2;
        var k := Exponent(y, size, index);
        var (u, v) := WingPair(y, span);
        if x == 0 {
          u := ReverseIndex(u, stages);
          v := ReverseIndex(v, stages);
        }
        assert Texel(k, u, v) == TableRow(stages, y)[x];
        assert TableRow(stages, y)[..x + 1] == TableRow(stages, y)[..x] + [Texel(k, u, v)];
        pixels := pixels + [Texel(k, u, v)];
        x := x + 1;
      }
      assert TableRow(stages, y)[..x] == TableRow(stages, y);
      assert Rows(stages)[..y + 1][..y] == Rows(stages)[..y];
      y := y + 1;
    }
    assert Rows(stages)[..y] == Rows(stages);
  }

  // ---------------------------------------------------------------------
  // What the table holds

  /** The whole table: 2^stages rows of `stages` texels, texel (x, y) at y * stages + x. */
  lemma TableLayout(stages: nat, y: nat, x: nat)
    requires stages <= MaxStages && y < Pow2(stages) && x < stages
    ensures |Table(stages)| == Pow2(stages) * stages
    ensures y * stages + x < |Table(stages)|
    ensures Table(stages)[y * stages + x] == TexelAt(stages, x, y)
  {
    var rows := Rows(stages);
    assert forall i | 0 <= i < |rows| :: |rows[i]| == stages;
    FlattenEntry(rows, stages, y, x);
    assert rows[y][x] == TableRow(stages, y)[x];
  }

  /** 2^stages = 2^(stages-x-1) * 2^(x+1): the butterfly groups of stage x tile the rows. */
  lemma GroupsTile(stages: nat, x: nat) returns (groups: nat)
    requires x < stages
    ensures groups == Pow2(stages - x - 1)
    ensures Pow2(stages) == groups * (Pow2(x) * 2)
  {
    Pow2Add(stages - x - 1, x + 1);
    assert stages == (stages - x - 1) + (x + 1);
    groups := Pow2(stages - x - 1);
  }

  /** In the top wing of a group, the partner y + span is still in the same group. */
  lemma TopWingInRange(y: nat, span: nat, groups: nat)
    requires span >= 1 && y < groups * (span * 2) && y % (span * 2) < span
    ensures y + span < groups * (span * 2)
  {
    var index := span * 2;
    var q, r := y / index, y % index;
    if q >= groups {
      MulMonotone(groups, q, index);
      assert false;
    }
    MulMonotone(q + 1, groups, index);
    assert (q + 1) * index == q * index + index;
  }

  /** Both rows of the pair lie in the group of y, so inside the table. */
  lemma WingPairInRange(y: nat, span: nat, groups: nat)
    requires span >= 1 && y < groups * (span * 2)
    ensures WingPair(y, span).1 < groups * (span * 2)
  {
    if y % (span * 2) < span {
      TopWingInRange(y, span, groups);
    }
  }

  /**
   * The pair of a stage above 0: the top-wing row u and its partner u + 2^x,
   * both inside the table, with row y one of the two.
   */
  lemma TexelPairAbove0(stages: nat, x: nat, y: nat)
    requires 0 < x < stages <= MaxStages && y < Pow2(stages)
    ensures TwiddlePair(stages, x, y).1 < Pow2(stages)
    ensures TwiddlePair(stages, x, y).1 == TwiddlePair(stages, x, y).0 + Pow2(x)
    ensures TwiddlePair(stages, x, y).0 % (Pow2(x) * 2) < Pow2(x)
    ensures y == TwiddlePair(stages, x, y).0 || y == TwiddlePair(stages, x, y).1
  {
    var groups := GroupsTile(stages, x);
    WingPairInRange(y, Pow2(x), groups);
  }

  /** At stage 0 rows 2j and 2j + 1 form one pair. */
  lemma WingPairStage0(j: nat, y: nat)
    requires y == 2 * j || y == 2 * j + 1
    ensures Pow2(0) == 1 && WingPair(y, Pow2(0)) == (2 * j, 2 * j + 1)
  {
    assert Pow2(0) == 1;
    var p := WingPair(y, 1);
    if y == 2 * j {
      DivModUnique(y, 2, j, 0);
    } else {
      DivModUnique(y, 2, j, 1);
      if p.0 == y {
        assert false;
      }
    }
  }

  /**
   * Stage 0 pairs the neighbouring rows 2j and 2j + 1: either row of the
   * pair stores both rows put through `reverse`.
   */
  lemma TexelStage0(stages: nat, j: nat, y: nat)
    requires 0 < stages <= MaxStages && 2 * j + 1 < Pow2(stages)
    requires y == 2 * j || y == 2 * j + 1
    ensures 2 * j + 1 < U32Limit
    ensures TwiddlePair(stages, 0, y) == (ReverseIndex(2 * j, stages), ReverseIndex(2 * j + 1, stages))
  {
    if y == 2 * j {
      Stage0Row(stages, j, y);
    } else {
      Stage0Row(stages, j, y);
    }
  }

  lemma Stage0Row(stages: nat, j: nat, y: nat)
    requires 0 < stages <= MaxStages && 2 * j + 1 < Pow2(stages)
    requires y == 2 * j || y == 2 * j + 1
    ensures 2 * j + 1 < U32Limit
    ensures WingPair(y, Pow2(0)) == (2 * j, 2 * j + 1)
    ensures TwiddlePair(stages, 0, y) == (ReverseIndex(WingPair(y, Pow2(0)).0, stages), ReverseIndex(WingPair(y, Pow2(0)).1, stages))
  {
    StagesBound(stages);
    WingPairStage0(j, y);
  }

  /** `31 - leading_zeros(width)` is floor(log2 width): for a power of two, its exponent. */
  lemma StagesIsLog2(width: nat)
    requires 1 <= width < U32Limit
    ensures Stages(width) == Log2Floor(width)
    ensures Pow2(Stages(width)) <= width < Pow2(Stages(width) + 1)
    ensures ExactSize(width) ==> Pow2(Stages(width)) == width
  {
    LeadingZerosIsLog2(width);
  }

  /** Below 2^stages, the `reverse` closure is the bit reversal over `stages` bits. */
  lemma ReverseIndexIsRevBits(i: nat, stages: nat)
    requires stages < 32 && i < Pow2(stages)
    ensures i < U32Limit && ReverseIndex(i, stages) == RevBits(i, stages)
  {
    ReverseThenRotate(i, stages);
  }

  /** With size = groups * index the division in the exponent is exact. */
  lemma ExponentExact(y: nat, groups: nat, index: nat)
    requires groups >= 1 && index >= 1
    ensures (y * (groups * index) / index) * index == y * (groups * index)
    ensures Exponent(y, groups * index, index) == (y * groups) % (groups * index)
  {
    assert y * (groups * index) == (y * groups) * index;
    MulDivCancel(y * groups, index);
  }

  /**
   * The twiddle exponent is exact: 2^(x+1) divides y * 2^stages, and
   * k = y * 2^(stages - x - 1) mod 2^stages.
   */
  lemma TwiddleExponentExact(stages: nat, x: nat, y: nat)
    requires x < stages
    ensures (y * Pow2(stages) / (Pow2(x) * 2)) * (Pow2(x) * 2) == y * Pow2(stages)
    ensures Exponent(y, Pow2(stages), Pow2(x) * 2) == (y * Pow2(stages - x - 1)) % Pow2(stages)
  {
    var groups := GroupsTile(stages, x);
    ExponentExact(y, groups, Pow2(x) * 2);
  }

  // ---------------------------------------------------------------------
  // The render schedule

  /** The textures a pass can read or the framebuffers it can write. */
  datatype Slot = Freq | Ping | Output

  datatype Kind = Butterfly(direction: nat, stage: nat) | Inversion(n: nat)

  /** One GPU pipeline: the shader with its uniforms, its input texture and its target. */
  datatype Pass = Pass(kind: Kind, source: Slot, target: Slot)

  /** A pipeline call that returned an error, by its position in the schedule. */
  datatype RenderError = PipelineError(pass: nat)

  /** `31 - leading_zeros(width)`: the number of butterfly stages per direction. */
  function Stages(width: nat): (s: nat)
    requires 1 <= width < U32Limit
    ensures s <= 31
  {
    LeadingZerosIsLog2(width);
    31 - LeadingZeros(width, 32)
  }

  /** The `[in, out]` ping-pong pair before pass n: swapped after every butterfly pass. */
  function Buffers(n: nat): (Slot, Slot)
  {
    if n == 0 then (Ping, Output) else (Buffers(n - 1).1, Buffers(n - 1).0)
  }

  /** After an even number of swaps the pair is back to `[ping, output]`. */
  lemma {:induction false} BuffersParity(n: nat)
    ensures Buffers(n) == if n % 2 == 0 then (Ping, Output) else (Output, Ping)
  {
    if n > 0 {
      BuffersParity(n - 1);
    }
  }

  /** Pass i of the schedule: 2 * s butterflies, then the inversion of a width-wide texture. */
  function PlannedPass(width: nat, s: nat, i: nat): Pass
  {
    if i < 2 * s then
      Pass(Butterfly(if i < s then 0 else 1, if i < s then i else i - s),
           if i == 0 then Freq else Buffers(i).0,
           Buffers(i).1)
    else
      Pass(Inversion(width), Ping, Output)
  }

  /** The whole schedule for s stages: 2 * s + 1 passes. */
  function Plan(width: nat, s: nat): (p: seq<Pass>)
    ensures |p| == 2 * s + 1
  {
    seq(2 * s + 1, i requires 0 <= i => PlannedPass(width, s, i))
  }

  /** The butterfly of (direction, stage) is pass direction * stages + stage. */
  lemma ButterflyAt(width: nat, s: nat, direction: nat, stage: nat)
    requires direction < 2 && stage < s
    ensures var n := (if direction == 0 then 0 else s) + stage;
      n < 2 * s &&
      Plan(width, s)[n] == Pass(Butterfly(direction, stage),
                             if n == 0 then Freq else Buffers(n).0, Buffers(n).1)
  {
  }

  /** The last pass inverts from the ping buffer into the output. */
  lemma InversionAt(width: nat, s: nat)
    ensures Plan(width, s)[2 * s] == Pass(Inversion(width), Ping, Output)
    ensures Buffers(2 * s) == (Ping, Output)
  {
    BuffersParity(2 * s);
  }

  /**
   * The schedule is a chain: every pass after the first reads the texture
   * the pass before it wrote, and the inversion reads what the last
   * butterfly wrote.
   */
  lemma PlanChains(width: nat, s: nat, i: nat)
    requires 0 < i <= 2 * s
    ensures Plan(width, s)[i].source == Plan(width, s)[i - 1].target
  {
    if i == 2 * s {
      BuffersParity(2 * s);
    }
  }

  /**
   * No pass writes the texture it reads, and none writes the frequency
   * texture: the first reads it, every other pass reads a ping-pong buffer.
   */
  lemma PlanSlots(width: nat, s: nat, i: nat)
    requires i <= 2 * s
    ensures Plan(width, s)[i].source != Plan(width, s)[i].target
    ensures Plan(width, s)[i].target != Freq
    ensures Plan(width, s)[i].source == Freq <==> (i == 0 && s > 0)
  {
    BuffersParity(i);
  }

  /** The inversion writes the output framebuffer, which the result hands back. */
  lemma PlanEndsInOutput(width: nat, s: nat)
    ensures Plan(width, s)[2 * s].target == Output
    ensures Plan(width, s)[2 * s].kind == Inversion(width)
    ensures s > 0 ==> Plan(width, s)[2 * s - 1].target == Ping
  {
    InversionAt(width, s);
    if s > 0 {
      PlanChains(width, s, 2 * s);
    }
  }

  /**
   * A texture one texel wide has no butterfly stage, so the inversion is
   * the only pass, and it reads the ping buffer that nothing has written.
   */
  lemma WidthOneReadsUnwrittenPing()
    ensures Stages(1) == 0
    ensures Plan(1, Stages(1)) == [Pass(Inversion(1), Ping, Output)]
  {
    StagesIsLog2(1);
    assert Pow2(1) == 2;
    Log2FloorUnique(1, 0);
  }

  /** The first of passes 0 .. n - 1 whose pipeline call fails, or n when none does. */
  function FirstFailure(gpu: nat -> bool, n: nat): (f: nat)
    ensures f <= n
    ensures forall i | 0 <= i < f :: gpu(i)
    ensures f < n ==> !gpu(f)
  {
    if n == 0 then 0
    else
      var f := FirstFailure(gpu, n - 1);
      if f < n - 1 || !gpu(n - 1) then f else n
  }

  /** Any k with gpu true below k and false at k (or k = n) is the first failure. */
  lemma {:induction false} FirstFailureUnique(gpu: nat -> bool, n: nat, k: nat)
    requires k <= n
    requires forall i | 0 <= i < k :: gpu(i)
    requires k < n ==> !gpu(k)
    ensures FirstFailure(gpu, n) == k
  {
    if n > 0 && k < n {
      if k < n - 1 {
        FirstFailureUnique(gpu, n - 1, k);
      } else {
        FirstFailureUnique(gpu, n - 1, n - 1);
      }
    } else if n > 0 {
      FirstFailureUnique(gpu, n - 1, n - 1);
    }
  }

  /**
   * What `render` leaves behind: the passes issued, up to and including the
   * first whose pipeline call fails, and that failure as its error; or, when
   * every call succeeds, the whole schedule and the output texture.
   */
  predicate Reported(width: nat, s: nat, gpu: nat -> bool, log: seq<Pass>, result: Result<Slot, RenderError>)
  {
    var f := FirstFailure(gpu, 2 * s + 1);
    log == Plan(width, s)[..if f < 2 * s + 1 then f + 1 else f] &&
    result == if f < 2 * s + 1 then Err(PipelineError(f)) else Ok(Output)
  }

  lemma ReportFailure(width: nat, s: nat, gpu: nat -> bool, log: seq<Pass>, k: nat)
    requires k < 2 * s + 1 && log == Plan(width, s)[..k + 1]
    requires FirstFailure(gpu, k) == k && !gpu(k)
    ensures Reported(width, s, gpu, log, Err(PipelineError(k)))
  {
    FirstFailureUnique(gpu, 2 * s + 1, k);
  }

  lemma ReportSuccess(width: nat, s: nat, gpu: nat -> bool, log: seq<Pass>)
    requires log == Plan(width, s)
    requires FirstFailure(gpu, 2 * s + 1) == 2 * s + 1
    ensures Reported(width, s, gpu, log, Ok(Output))
  {
  }

  /** Issuing the next planned pass keeps the log a prefix of the plan. */
  lemma LogStep(plan: seq<Pass>, log: seq<Pass>)
    requires |log| < |plan| && log == plan[..|log|]
    ensures log + [plan[|log|]] == plan[..|log| + 1]
  {
  }

  /** Issuing butterfly (direction, stage) from the current pair extends the logged prefix of the plan. */
  lemma ButterflyStep(width: nat, s: nat, direction: nat, stage: nat, log: seq<Pass>, texture: Slot)
    requires direction < 2 && stage < s
    requires |log| == (if direction == 0 then 0 else s) + stage
    requires log == Plan(width, s)[..|log|]
    requires texture == if |log| == 0 then Freq else Buffers(|log|).0
    ensures log + [Pass(Butterfly(direction, stage), texture, Buffers(|log|).1)] == Plan(width, s)[..|log| + 1]
  {
    ButterflyAt(width, s, direction, stage);
    LogStep(Plan(width, s), log);
  }

  /** One more successful call keeps "no failure so far". */
  lemma FirstFailureStep(gpu: nat -> bool, n: nat)
    requires FirstFailure(gpu, n) == n && gpu(n)
    ensures FirstFailure(gpu, n + 1) == n + 1
  {
  }

  /**
   * The inner loop of `Fft::render` for one direction: `stages` butterfly
   * passes, each reading the frequency texture (the very first) or the
   * previous target, writing the other buffer of the ping-pong pair, then
   * swapping the pair. Stops at the first failing pipeline call.
   */
  method DirectionPasses(width: nat, stages: nat, direction: nat, gpu: nat -> bool,
                         log0: seq<Pass>, pingpong0: (Slot, Slot), initial0: Option<Slot>)
    returns (log: seq<Pass>, pingpong: (Slot, Slot), initial: Option<Slot>, failed: bool)
    requires direction < 2 && |log0| == if direction == 0 then 0 else stages
    requires log0 == Plan(width, stages)[..|log0|]
    requires FirstFailure(gpu, |log0|) == |log0|
    requires pingpong0 == Buffers(|log0|)
    requires initial0 == if |log0| == 0 then Some(Freq) else None
    ensures |log0| <= |log| <= |log0| + stages
    ensures log == Plan(width, stages)[..|log|]
    ensures !failed ==> (|log| == |log0| + stages && FirstFailure(gpu, |log|) == |log| &&
      pingpong == Buffers(|log|) && initial == if |log| == 0 then Some(Freq) else None)
    ensures failed ==> (|log0| < |log| &&
      FirstFailure(gpu, |log| - 1) == |log| - 1 && !gpu(|log| - 1))
  {
    log, pingpong, initial := log0, pingpong0, initial0;
    for stage := 0 to stages
      invariant |log| == |log0| + stage
      invariant log == Plan(width, stages)[..|log|]
      invariant FirstFailure(gpu, |log|) == |log|
      invariant pingpong == Buffers(|log|)
      invariant initial == if |log| == 0 then Some(Freq) else None
    {
      var (inBuffer, outBuffer) := pingpong;
      var texture := match initial case Some(t) => t case None => inBuffer;
      initial := None;
      ButterflyStep(width, stages, direction, stage, log, texture);
      log := log + [Pass(Butterfly(direction, stage), texture, outBuffer)];
      if !gpu(|log| - 1) {
        failed := true;
        return;
      }
      FirstFailureStep(gpu, |log| - 1);
      pingpong := (outBuffer, inBuffer);
    }
    failed := false;
  }

  /**
   * The two nested loops of `Fft::render`: the butterfly passes of
   * direction 0, then of direction 1.
   */
  method ButterflyPasses(width: nat, stages: nat, gpu: nat -> bool)
    returns (log: seq<Pass>, pingpong: (Slot, Slot), failed: bool)
    ensures !failed ==> |log| == 2 * stages && FirstFailure(gpu, |log|) == |log|
    ensures failed ==> (1 <= |log| <= 2 * stages &&
      FirstFailure(gpu, |log| - 1) == |log| - 1 && !gpu(|log| - 1))
    ensures log == Plan(width, stages)[..|log|]
    ensures !failed ==> pingpong == Buffers(|log|)
  {
    pingpong := (Ping, Output);
    var initial: Option<Slot> := Some(Freq);
    log := [];
    for direction := 0 to 2
      invariant |log| == if direction == 0 then 0 else if direction == 1 then stages else 2 * stages
      invariant log == Plan(width, stages)[..|log|]
      invariant FirstFailure(gpu, |log|) == |log|
      invariant pingpong == Buffers(|log|)
      invariant initial == if |log| == 0 then Some(Freq) else None
    {
      log, pingpong, initial, failed := DirectionPasses(width, stages, direction, gpu, log, pingpong, initial);
      if failed {
        return;
      }
    }
    failed := false;
  }

  /**
   * `Fft::render`: the butterfly passes, then the inversion pass from the
   * buffer the last butterfly wrote into the output framebuffer; `?`
   * returns the first pipeline error. `gpu(i)` tells whether the pipeline
   * call of pass i succeeds.
   */
  method Render(width: nat, gpu: nat -> bool) returns (log: seq<Pass>, result: Result<Slot, RenderError>)
    requires 1 <= width < U32Limit
    ensures Reported(width, Stages(width), gpu, log, result)
  {
    var stages := Stages(width);
    var pingpong, failed;
    log, pingpong, failed := ButterflyPasses(width, stages, gpu);
    if failed {
      ReportFailure(width, stages, gpu, log, |log| - 1);
      result := Err(PipelineError(|log| - 1));
      return;
    }
    InversionAt(width, stages);
    var (inBuffer, outBuffer) := pingpong;
    var pass := Pass(Inversion(width), inBuffer, outBuffer);
    LogStep(Plan(width, stages), log);
    log := log + [pass];
    if !gpu(|log| - 1) {
      ReportFailure(width, stages, gpu, log, |log| - 1);
      result := Err(PipelineError(|log| - 1));
      return;
    }
    ReportSuccess(width, stages, gpu, log);
    result := Ok(Output);
  }
}
