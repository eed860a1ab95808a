/** Fast-forwarding a PCM stream, as a machine that reads one byte at a time, and what such a
    stream comes to: a filter on byte positions that does not depend on how the stream was
    cut into buffers. */
module PcmStream {
  import opened Wrappers

  /** Bytes still to be skipped, or bytes of the current frame already copied. */
  datatype Carry = Carry(skip: nat, npartial: nat)

  /** The frame size, and the number of bytes skipped after each frame that is kept. */
  datatype Rate = Rate(align: nat, gap: nat)

  predicate Fits(rate: Rate, carry: Carry) {
    && carry.npartial < rate.align
    && (carry.skip > 0 ==> carry.npartial == 0)
  }

  predicate Keeps(carry: Carry) {
    carry.skip == 0
  }

  /** The carry after one more byte. */
  function Next(rate: Rate, carry: Carry): (carry': Carry)
    requires Fits(rate, carry)
    ensures Fits(rate, carry')
  {
    if carry.skip > 0 then carry.(skip := carry.skip - 1)
    else if carry.npartial + 1 == rate.align then Carry(rate.gap, 0)
    else carry.(npartial := carry.npartial + 1)
  }

  /** The bytes kept of a piece of the stream. */
  function Kept(rate: Rate, carry: Carry, data: seq<Byte>): seq<Byte>
    requires Fits(rate, carry)
    decreases |data|
  {
    if data == [] then []
    else (if Keeps(carry) then [data[0]] else []) + Kept(rate, Next(rate, carry), data[1..])
  }

  /** The carry after a number of bytes. */
  function Later(rate: Rate, carry: Carry, n: nat): (carry': Carry)
    requires Fits(rate, carry)
    ensures Fits(rate, carry')
    decreases n
  {
    if n == 0 then carry else Later(rate, Next(rate, carry), n - 1)
  }

  lemma {:induction false} LaterAdd(rate: Rate, carry: Carry, m: nat, n: nat)
    requires Fits(rate, carry)
    ensures Later(rate, carry, m + n) == Later(rate, Later(rate, carry, m), n)
    decreases m
  {
    if m > 0 {
      LaterAdd(rate, Next(rate, carry), m - 1, n);
    }
  }

  lemma {:induction false} KeptAppend(rate: Rate, carry: Carry, a: seq<Byte>, b: seq<Byte>)
    requires Fits(rate, carry)
    ensures Kept(rate, carry, a + b) == Kept(rate, carry, a) + Kept(rate, Later(rate, carry, |a|), b)
    decreases |a|
  {
    if a == [] {
      assert a + b == b;
    } else {
      assert (a + b)[1..] == a[1..] + b;
      KeptAppend(rate, Next(rate, carry), a[1..], b);
    }
  }

  lemma {:induction false} KeptShorter(rate: Rate, carry: Carry, data: seq<Byte>)
    requires Fits(rate, carry)
    ensures |Kept(rate, carry, data)| <= |data|
    decreases |data|
  {
    if data != [] {
      KeptShorter(rate, Next(rate, carry), data[1..]);
    }
  }

  // ----- a stream in buffers -----

  /** A buffer, and the gap in force when it is handled. */
  datatype Chunk = Chunk(gap: nat, data: seq<Byte>)

  function Bytes(chunks: seq<Chunk>): seq<Byte> {
    if chunks == [] then [] else chunks[0].data + Bytes(chunks[1..])
  }

  /** What reaches the lower driver when the buffers are handled one after the other. */
  function Played(align: nat, carry: Carry, chunks: seq<Chunk>): seq<Byte>
    requires Fits(Rate(align, 0), carry)
    decreases |chunks|
  {
    if chunks == [] then []
    else
      var rate := Rate(align, chunks[0].gap);
      Kept(rate, carry, chunks[0].data) + Played(align, Later(rate, carry, |chunks[0].data|), chunks[1..])
  }

  /** The carry after those buffers. */
  function Reached(align: nat, carry: Carry, chunks: seq<Chunk>): (carry': Carry)
    requires Fits(Rate(align, 0), carry)
    ensures Fits(Rate(align, 0), carry')
    decreases |chunks|
  {
    if chunks == [] then carry
    else Reached(align, Later(Rate(align, chunks[0].gap), carry, |chunks[0].data|), chunks[1..])
  }

  lemma {:induction false} OneMore(align: nat, carry: Carry, chunks: seq<Chunk>, last: Chunk)
    requires Fits(Rate(align, 0), carry)
    ensures var at, rate := Reached(align, carry, chunks), Rate(align, last.gap);
            && Played(align, carry, chunks + [last]) == Played(align, carry, chunks) + Kept(rate, at, last.data)
            && Reached(align, carry, chunks + [last]) == Later(rate, at, |last.data|)
    decreases |chunks|
  {
    if chunks == [] {
      assert chunks + [last] == [last] && [last][1..] == [];
    } else {
      var rate := Rate(align, chunks[0].gap);
      assert (chunks + [last])[1..] == chunks[1..] + [last];
      OneMore(align, Later(rate, carry, |chunks[0].data|), chunks[1..], last);
    }
  }

  predicate SameRate(gap: nat, chunks: seq<Chunk>) {
    forall i :: 0 <= i < |chunks| ==> chunks[i].gap == gap
  }

  /** At one rate, cutting the stream into buffers makes no difference. */
  lemma {:induction false} PlayedWhole(rate: Rate, carry: Carry, chunks: seq<Chunk>)
    requires Fits(rate, carry) && SameRate(rate.gap, chunks)
    ensures Played(rate.align, carry, chunks) == Kept(rate, carry, Bytes(chunks))
    decreases |chunks|
  {
    if chunks != [] {
      PlayedWhole(rate, Later(rate, carry, |chunks[0].data|), chunks[1..]);
      KeptAppend(rate, carry, chunks[0].data, Bytes(chunks[1..]));
    }
  }

  /** The filter on positions: byte `pos` is kept if it falls in the first `align` bytes of its
      period. */
  function Sampled(align: nat, period: nat, pos: nat, data: seq<Byte>): seq<Byte>
    requires period > 0
    decreases |data|
  {
    if data == [] then []
    else (if pos % period < align then [data[0]] else []) + Sampled(align, period, pos + 1, data[1..])
  }

  /** Where in its period the stream stands. */
  function Phase(rate: Rate, carry: Carry): int {
    if carry.skip > 0 then rate.align + rate.gap - carry.skip else carry.npartial
  }

  lemma Multiple(d: int, n: nat)
    ensures d >= 2 ==> d * n >= 2 * n
    ensures d <= -1 ==> d * n <= 0 - n
  {
  }

  lemma ModNext(pos: nat, period: nat)
    requires period > 0
    ensures (pos + 1) % period == if pos % period + 1 == period then 0 else pos % period + 1
  {
    var q, r := pos / period, pos % period;
    var q', r' := (pos + 1) / period, (pos + 1) % period;
    assert pos == q * period + r && pos + 1 == q' * period + r';
    assert (q' - q) * period == r + 1 - r';
    Multiple(q' - q, period);
    assert q' - q == 0 || q' - q == 1;
  }

  lemma {:induction false} KeptIsSampled(rate: Rate, carry: Carry, pos: nat, data: seq<Byte>)
    requires Fits(rate, carry) && carry.skip <= rate.gap
    requires pos % (rate.align + rate.gap) == Phase(rate, carry)
    ensures Kept(rate, carry, data) == Sampled(rate.align, rate.align + rate.gap, pos, data)
    decreases |data|
  {
    if data != [] {
      ModNext(pos, rate.align + rate.gap);
      KeptIsSampled(rate, Next(rate, carry), pos + 1, data[1..]);
    }
  }

  // ----- the fast-forward rates -----

  /** The number of bytes between kept frames.  It is stored in eight bits. */
  function Gap(align: nat, subsample: nat): nat
    requires subsample >= 1
  {
    align * (subsample - 1) % 256
  }

  /** For every frame size, every rate and every way of cutting the stream into buffers, the
      lower driver gets the bytes at the first `align` positions of each period. */
  lemma StreamIsSampled(align: nat, subsample: nat, chunks: seq<Chunk>)
    requires align >= 1 && subsample >= 1 && SameRate(Gap(align, subsample), chunks)
    ensures Played(align, Carry(0, 0), chunks) == Sampled(align, align + Gap(align, subsample), 0, Bytes(chunks))
  {
    var rate := Rate(align, Gap(align, subsample));
    PlayedWhole(rate, Carry(0, 0), chunks);
    KeptIsSampled(rate, Carry(0, 0), 0, Bytes(chunks));
  }

  lemma {:induction false} SampledAppend(align: nat, period: nat, pos: nat, a: seq<Byte>, b: seq<Byte>)
    requires period > 0
    ensures Sampled(align, period, pos, a + b) == Sampled(align, period, pos, a) + Sampled(align, period, pos + |a|, b)
    decreases |a|
  {
    if a == [] {
      assert a + b == b;
    } else {
      assert (a + b)[1..] == a[1..] + b;
      SampledAppend(align, period, pos + 1, a[1..], b);
    }
  }

  lemma SampledOne(align: nat, period: nat, pos: nat, data: seq<Byte>)
    requires pos < period && data != []
    ensures |Sampled(align, period, pos, data)| ==
            |Sampled(align, period, pos + 1, data[1..])| + if pos < align then 1 else 0
  {
    assert pos % period == pos;
  }

  /** Within one period, the number of bytes kept. */
  lemma {:induction false} SampledCount(align: nat, period: nat, pos: nat, data: seq<Byte>)
    requires align <= period && pos + |data| <= period && period > 0
    ensures |Sampled(align, period, pos, data)| ==
            if align <= pos then 0 else if pos + |data| <= align then |data| else align - pos
    decreases |data|
  {
    if data != [] {
      SampledOne(align, period, pos, data);
      SampledCount(align, period, pos + 1, data[1..]);
    }
  }

  /** What fast-forwarding by `subsample` is meant to keep: one frame of every `subsample`. */
  ghost predicate FastForwards(align: nat, subsample: nat)
    requires align >= 1 && subsample >= 1
  {
    forall chunks: seq<Chunk> :: SameRate(Gap(align, subsample), chunks) ==>
      Played(align, Carry(0, 0), chunks) == Sampled(align, align * subsample, 0, Bytes(chunks))
  }

  /** One period more than the shorter one: it keeps a byte that the longer one drops. */
  lemma TooMany(align: nat, period: nat, longer: nat, a: seq<Byte>)
    requires 1 <= align <= period < longer && |a| == period
    ensures |Sampled(align, period, 0, a + [0])| == align + 1
    ensures |Sampled(align, longer, 0, a + [0])| == align
  {
    SampledAppend(align, period, 0, a, [0]);
    SampledCount(align, period, 0, a);
    assert Sampled(align, period, period, [0]) == [0];
    SampledCount(align, longer, 0, a + [0]);
  }

  lemma WideGapGoesWrong(align: nat, subsample: nat) returns (chunks: seq<Chunk>)
    requires align >= 1 && subsample >= 1 && align * (subsample - 1) > 255
    ensures SameRate(Gap(align, subsample), chunks)
    ensures Played(align, Carry(0, 0), chunks) != Sampled(align, align * subsample, 0, Bytes(chunks))
  {
    var gap := Gap(align, subsample);
    var period := align + gap;
    var a := seq(period, _ => 0 as Byte);
    chunks := [Chunk(gap, a + [0])];
    StreamIsSampled(align, subsample, chunks);
    assert Bytes(chunks) == a + [0] by { assert chunks[1..] == [] && a + [0] + [] == a + [0]; }
    assert period < align * subsample by { assert align * subsample == align + align * (subsample - 1); }
    TooMany(align, period, align * subsample, a);
  }

  /** It does so exactly when the gap fits in eight bits. */
  lemma FastForwardExact(align: nat, subsample: nat)
    requires align >= 1 && subsample >= 1
    ensures FastForwards(align, subsample) <==> align * (subsample - 1) <= 255
  {
    if align * (subsample - 1) <= 255 {
      forall chunks: seq<Chunk> | SameRate(Gap(align, subsample), chunks)
        ensures Played(align, Carry(0, 0), chunks) == Sampled(align, align * subsample, 0, Bytes(chunks))
      {
        StreamIsSampled(align, subsample, chunks);
        assert align * subsample == align + Gap(align, subsample);
      }
    } else {
      var chunks := WideGapGoesWrong(align, subsample);
    }
  }

  // ----- changing the rate while fast-forwarding -----

  /** The bytes that a mask lets through. */
  function Select(mask: seq<bool>, data: seq<Byte>): seq<Byte>
    requires |mask| == |data|
  {
    if data == [] then [] else (if mask[0] then [data[0]] else []) + Select(mask[1..], data[1..])
  }

  function Mask(rate: Rate, carry: Carry, n: nat): (mask: seq<bool>)
    requires Fits(rate, carry)
    ensures |mask| == n
    decreases n
  {
    if n == 0 then [] else [Keeps(carry)] + Mask(rate, Next(rate, carry), n - 1)
  }

  function MaskAt(align: nat, carry: Carry, chunks: seq<Chunk>): (mask: seq<bool>)
    requires Fits(Rate(align, 0), carry)
    ensures |mask| == |Bytes(chunks)|
    decreases |chunks|
  {
    if chunks == [] then []
    else
      var rate := Rate(align, chunks[0].gap);
      var n := |chunks[0].data|;
      Mask(rate, carry, n) + MaskAt(align, Later(rate, carry, n), chunks[1..])
  }

  lemma {:induction false} SelectAppend(m: seq<bool>, a: seq<Byte>, m': seq<bool>, b: seq<Byte>)
    requires |m| == |a| && |m'| == |b|
    ensures Select(m + m', a + b) == Select(m, a) + Select(m', b)
    decreases |a|
  {
    if a == [] {
      assert m + m' == m' && a + b == b;
    } else {
      assert (m + m')[1..] == m[1..] + m' && (a + b)[1..] == a[1..] + b;
      SelectAppend(m[1..], a[1..], m', b);
      Regroup(if m[0] then [a[0]] else [], Select(m[1..], a[1..]), Select(m', b));
    }
  }

  lemma {:induction false} KeptIsSelected(rate: Rate, carry: Carry, data: seq<Byte>)
    requires Fits(rate, carry)
    ensures Kept(rate, carry, data) == Select(Mask(rate, carry, |data|), data)
    decreases |data|
  {
    if data != [] {
      KeptIsSelected(rate, Next(rate, carry), data[1..]);
    }
  }

  lemma {:induction false} PlayedIsSelected(align: nat, carry: Carry, chunks: seq<Chunk>)
    requires Fits(Rate(align, 0), carry)
    ensures Played(align, carry, chunks) == Select(MaskAt(align, carry, chunks), Bytes(chunks))
    decreases |chunks|
  {
    if chunks != [] {
      var rate := Rate(align, chunks[0].gap);
      var n := |chunks[0].data|;
      KeptIsSelected(rate, carry, chunks[0].data);
      PlayedIsSelected(align, Later(rate, carry, n), chunks[1..]);
      SelectAppend(Mask(rate, carry, n), chunks[0].data, MaskAt(align, Later(rate, carry, n), chunks[1..]),
                   Bytes(chunks[1..]));
    }
  }

  /** How the carry relates to the frames of the source, which begin at multiples of `align`. */
  predicate InStep(align: nat, carry: Carry, pos: nat)
    requires align >= 1
  {
    if carry.skip > 0 then (pos + carry.skip) % align == 0 else pos % align == carry.npartial
  }

  lemma ModSum(a: nat, b: nat, n: nat)
    requires n >= 1 && a % n == 0 && b % n == 0
    ensures (a + b) % n == 0
  {
    var p, q := a / n, b / n;
    assert a + b == (p + q) * n;
    var d, r := (a + b) / n, (a + b) % n;
    assert (p + q - d) * n == r;
    Multiple(p + q - d, n);
    assert p + q - d == 0 || p + q - d == 1;
  }

  lemma StepInStep(rate: Rate, carry: Carry, pos: nat)
    requires Fits(rate, carry) && rate.gap % rate.align == 0 && InStep(rate.align, carry, pos)
    ensures InStep(rate.align, Next(rate, carry), pos + 1)
    ensures (pos + 1) % rate.align != 0 ==> Keeps(carry) == Keeps(Next(rate, carry))
  {
    ModNext(pos, rate.align);
    if carry.skip == 0 && carry.npartial + 1 == rate.align && rate.gap > 0 {
      ModSum(pos + 1, rate.gap, rate.align);
    }
  }

  /** Two bytes of one source frame are kept or dropped together. */
  predicate WholeFrames(align: nat, pos: nat, mask: seq<bool>)
    requires align >= 1
    decreases |mask|
  {
    |mask| >= 2 ==>
      && ((pos + 1) % align != 0 ==> mask[0] == mask[1])
      && WholeFrames(align, pos + 1, mask[1..])
  }

  lemma {:induction false} WholeFramesAt(align: nat, pos: nat, mask: seq<bool>, i: nat)
    requires align >= 1 && WholeFrames(align, pos, mask) && i + 1 < |mask|
    ensures (pos + i + 1) % align != 0 ==> mask[i] == mask[i + 1]
    decreases i
  {
    if i > 0 {
      WholeFramesAt(align, pos + 1, mask[1..], i - 1);
    }
  }

  predicate Starts(carry: Carry, mask: seq<bool>) {
    mask != [] ==> mask[0] == Keeps(carry)
  }

  lemma {:induction false} ExtendMask(rate: Rate, carry: Carry, pos: nat, n: nat, tail: seq<bool>)
    requires Fits(rate, carry) && rate.gap % rate.align == 0 && InStep(rate.align, carry, pos)
    requires Starts(Later(rate, carry, n), tail) && WholeFrames(rate.align, pos + n, tail)
    ensures Starts(carry, Mask(rate, carry, n) + tail)
    ensures WholeFrames(rate.align, pos, Mask(rate, carry, n) + tail)
    decreases n
  {
    if n == 0 {
      assert Mask(rate, carry, n) + tail == tail;
    } else {
      var next := Next(rate, carry);
      StepInStep(rate, carry, pos);
      ExtendMask(rate, next, pos + 1, n - 1, tail);
      assert (Mask(rate, carry, n) + tail)[1..] == Mask(rate, next, n - 1) + tail;
    }
  }

  lemma {:induction false} LaterInStep(rate: Rate, carry: Carry, pos: nat, n: nat)
    requires Fits(rate, carry) && rate.gap % rate.align == 0 && InStep(rate.align, carry, pos)
    ensures InStep(rate.align, Later(rate, carry, n), pos + n)
    decreases n
  {
    if n > 0 {
      StepInStep(rate, carry, pos);
      LaterInStep(rate, Next(rate, carry), pos + 1, n - 1);
    }
  }

  predicate WholeGaps(align: nat, chunks: seq<Chunk>)
    requires align >= 1
  {
    forall i :: 0 <= i < |chunks| ==> chunks[i].gap % align == 0
  }

  lemma {:induction false} MaskKeepsFrames(align: nat, carry: Carry, pos: nat, chunks: seq<Chunk>)
    requires Fits(Rate(align, 0), carry)
    requires WholeGaps(align, chunks) && InStep(align, carry, pos)
    ensures Starts(carry, MaskAt(align, carry, chunks))
    ensures WholeFrames(align, pos, MaskAt(align, carry, chunks))
    decreases |chunks|
  {
    if chunks != [] {
      var rate := Rate(align, chunks[0].gap);
      var n := |chunks[0].data|;
      LaterInStep(rate, carry, pos, n);
      MaskKeepsFrames(align, Later(rate, carry, n), pos + n, chunks[1..]);
      ExtendMask(rate, carry, pos, n, MaskAt(align, Later(rate, carry, n), chunks[1..]));
    }
  }

  /** However the rate changes from buffer to buffer, what is played is a selection of the
      source, in order, in which every source frame is either whole or absent. */
  lemma RatesKeepFrames(align: nat, chunks: seq<Chunk>) returns (mask: seq<bool>)
    requires align >= 1 && WholeGaps(align, chunks)
    ensures |mask| == |Bytes(chunks)| && Played(align, Carry(0, 0), chunks) == Select(mask, Bytes(chunks))
    ensures forall i :: 0 <= i && i + 1 < |mask| && (i + 1) % align != 0 ==> mask[i] == mask[i + 1]
  {
    mask := MaskAt(align, Carry(0, 0), chunks);
    PlayedIsSelected(align, Carry(0, 0), chunks);
    MaskKeepsFrames(align, Carry(0, 0), 0, chunks);
    forall i | 0 <= i && i + 1 < |mask| && (i + 1) % align != 0
      ensures mask[i] == mask[i + 1]
    {
      WholeFramesAt(align, 0, mask, i);
    }
  }

  lemma MultipleIsZero(n: nat, k: int)
    requires n >= 1 && n * k >= 0
    ensures n * k % n == 0
  {
    var q, r := n * k / n, n * k % n;
    assert (k - q) * n == r;
    Multiple(k - q, n);
    assert k - q == 0 || k - q == 1;
  }

  /** The gap is a whole number of frames when the frame size divides 256, as one, two and four
      bytes do, and when the gap fits in eight bits. */
  lemma GapIsWhole(align: nat, subsample: nat)
    requires align >= 1 && subsample >= 1
    requires 256 % align == 0 || align * (subsample - 1) <= 255
    ensures Gap(align, subsample) % align == 0
  {
    var n, gap := align * (subsample - 1), Gap(align, subsample);
    if n > 255 {
      var k, q := 256 / align, n / 256;
      assert 256 == k * align;
      assert gap == n - q * 256;
      assert gap == align * (subsample - 1 - q * k) by {
        assert q * 256 == align * (q * k);
      }
      MultipleIsZero(align, subsample - 1 - q * k);
    } else {
      MultipleIsZero(align, subsample - 1);
    }
  }
}
