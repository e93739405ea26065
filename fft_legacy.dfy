/**
 * The first FFT engine (src/fft.rs): a fixed 256 x 256 transform whose
 * twiddle table is built by the same loop as the later engine, and whose
 * render walks a ping-pong pair indexed by a parity bit instead of swapping
 * two references. Pipeline calls report no errors here.
 */
module FftLegacy {
  import opened Bits
  import Fft

  /** `N`: the texture side. */
  const N: nat := 0x100
  /** `(N as f32).log2() as u32`, exact for a power of two. */
  const LogN: nat := 8

  lemma SideIsPow2()
    ensures Pow2(LogN) == N && Fft.ExactSize(N) && Log2Floor(N) == LogN
  {
    assert Pow2(8) == 256;
    Fft.ExactSizeOfStages(LogN);
  }

  /**
   * `twiddle_indices`: LogN columns, N rows, the same texel per (x, y) as
   * the later engine's table for 2^8 rows.
   */
  method TwiddleIndices() returns (pixels: seq<Fft.Texel>)
    ensures |pixels| == N * LogN
    ensures pixels == Fft.Table(LogN)
  {
    SideIsPow2();
    var stages;
    stages, pixels := Fft.TwiddleIndices(N);
    Fft.TableLayout(LogN, 0, 0);
  }

  /** The input texture, or framebuffer 0 or 1 of `pingpong_buffers`. */
  datatype Slot = Input | Buffer(index: nat)

  datatype Kind = Butterfly(direction: nat, stage: nat) | Inversion

  datatype Pass = Pass(kind: Kind, source: Slot, target: Slot)

  /** The parity bit `pingpong` before pass i: it starts at bits % 2 and flips after every butterfly. */
  function Parity(bits: nat, i: nat): (p: nat)
    ensures p < 2
  {
    (bits + i) % 2
  }

  lemma ParityFlips(bits: nat, i: nat)
    ensures Parity(bits, i + 1) == 1 - Parity(bits, i)
  {
  }

  /** Pass i of the schedule for `bits` stages per direction. */
  function PlannedPass(bits: nat, i: nat): Pass
  {
    var p := Parity(bits, i);
    if i < 2 * bits then
      Pass(Butterfly(if i < bits then 0 else 1, if i < bits then i else i - bits),
           if i == 0 then Input else Buffer(p),
           Buffer(1 - p))
    else
      Pass(Inversion, Buffer(p), Buffer(1 - p))
  }

  /** 2 * bits butterflies and the inversion. */
  function Plan(bits: nat): (plan: seq<Pass>)
    ensures |plan| == 2 * bits + 1
  {
    seq(2 * bits + 1, i requires 0 <= i => PlannedPass(bits, i))
  }

  /**
   * `Fft::render`: the butterfly passes of both directions, the input
   * texture read only by the first, then the inversion; returns the
   * framebuffer the inversion wrote.
   */
  method Render() returns (log: seq<Pass>, result: Slot)
    ensures log == Plan(LogN)
    ensures result == log[|log| - 1].target
  {
    var bits := LogN;
    var pingpong := bits % 2;
    var firstRound := true;
    log := [];
    for direction := 0 to 2
      invariant |log| == if direction == 0 then 0 else if direction == 1 then bits else 2 * bits
      invariant log == Plan(bits)[..|log|]
      invariant pingpong == Parity(bits, |log|)
      invariant firstRound <==> |log| == 0
    {
      for stage := 0 to bits
        invariant |log| == (if direction == 0 then 0 else bits) + stage
        invariant log == Plan(bits)[..|log|]
        invariant pingpong == Parity(bits, |log|)
        invariant firstRound <==> |log| == 0
      {
        var input;
        if firstRound {
          firstRound := false;
          input := Input;
        } else {
          input := Buffer(pingpong);
        }
        var output := Buffer(1 - pingpong);
        assert Plan(bits)[|log|] == Pass(Butterfly(direction, stage), input, output);
        assert Plan(bits)[..|log| + 1] == log + [Pass(Butterfly(direction, stage), input, output)];
        log := log + [Pass(Butterfly(direction, stage), input, output)];
        ParityFlips(bits, |log| - 1);
        pingpong := 1 - pingpong;
      }
    }
    var input := Buffer(pingpong);
    var output := Buffer(1 - pingpong);
    assert Plan(bits) == log + [Pass(Inversion, input, output)];
    log := log + [Pass(Inversion, input, output)];
    result := output;
  }

  /** Every pass after the first reads the framebuffer the pass before it wrote. */
  lemma PlanChains(bits: nat, i: nat)
    requires 0 < i <= 2 * bits
    ensures Plan(bits)[i].source == Plan(bits)[i - 1].target
  {
    ParityFlips(bits, i - 1);
  }

  /**
   * No pass writes what it reads and none writes the input texture, which
   * only the first pass reads.
   */
  lemma PlanSlots(bits: nat, i: nat)
    requires i <= 2 * bits
    ensures Plan(bits)[i].source != Plan(bits)[i].target
    ensures Plan(bits)[i].target != Input
    ensures Plan(bits)[i].source == Input <==> (i == 0 && bits > 0)
  {
  }

  /**
   * The parity bit is back at `bits % 2` after the 2 * bits butterflies,
   * so the inversion always writes framebuffer `1 - bits % 2`: framebuffer
   * 1 for the 256-wide transform.
   */
  lemma ResultBuffer(bits: nat)
    ensures Plan(bits)[2 * bits].target == Buffer(1 - bits % 2)
    ensures Plan(LogN)[2 * LogN].target == Buffer(1)
  {
  }
}
