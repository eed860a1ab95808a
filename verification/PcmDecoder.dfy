/** The PCM decoder's fast-forward: it copies the frames it keeps down to the start of each audio
    buffer, in place, and carries what is left over from one buffer to the next. */
module PcmDecoder {
  import opened Wrappers
  import opened PcmStream

  /** After `i` bytes of a buffer. */
  predicate Done(rate: Rate, start: Carry, data: seq<Byte>, i: nat, out: seq<Byte>, carry: Carry)
    requires Fits(rate, start)
  {
    && i <= |data|
    && out == Kept(rate, start, data[..i])
    && carry == Later(rate, start, i)
  }

  lemma {:induction false} SkipBlock(rate: Rate, carry: Carry, data: seq<Byte>)
    requires Fits(rate, carry) && |data| <= carry.skip
    ensures Kept(rate, carry, data) == []
    ensures Later(rate, carry, |data|) == carry.(skip := carry.skip - |data|)
    decreases |data|
  {
    if data != [] {
      SkipBlock(rate, Next(rate, carry), data[1..]);
    }
  }

  lemma {:induction false} CopyBlock(rate: Rate, npartial: nat, data: seq<Byte>)
    requires 0 < |data| <= rate.align - npartial
    ensures Kept(rate, Carry(0, npartial), data) == data
    ensures Later(rate, Carry(0, npartial), |data|) ==
            if npartial + |data| == rate.align then Carry(rate.gap, 0) else Carry(0, npartial + |data|)
    decreases |data|
  {
    if |data| == 1 {
      assert data == [data[0]] + [] && data[1..] == [];
    } else {
      CopyBlock(rate, npartial + 1, data[1..]);
      assert data == [data[0]] + data[1..];
    }
  }

  lemma DoneMore(rate: Rate, start: Carry, data: seq<Byte>, i: nat, out: seq<Byte>, carry: Carry, n: nat)
    requires Fits(rate, start) && Done(rate, start, data, i, out, carry) && i + n <= |data|
    ensures Done(rate, start, data, i + n, out + Kept(rate, carry, data[i..i + n]), Later(rate, carry, n))
  {
    assert data[..i + n] == data[..i] + data[i..i + n];
    KeptAppend(rate, start, data[..i], data[i..i + n]);
    LaterAdd(rate, start, i, n);
  }

  lemma DoneSkip(rate: Rate, start: Carry, data: seq<Byte>, i: nat, out: seq<Byte>, skip: nat, n: nat)
    requires Fits(rate, start) && Done(rate, start, data, i, out, Carry(skip, 0))
    requires i + n <= |data| && n <= skip
    ensures Done(rate, start, data, i + n, out, Carry(skip - n, 0))
  {
    DoneMore(rate, start, data, i, out, Carry(skip, 0), n);
    SkipBlock(rate, Carry(skip, 0), data[i..i + n]);
    assert out + [] == out;
  }

  lemma DoneCopy(rate: Rate, start: Carry, data: seq<Byte>, i: nat, out: seq<Byte>, npartial: nat, n: nat)
    requires Fits(rate, start) && Done(rate, start, data, i, out, Carry(0, npartial))
    requires i + n <= |data| && 0 < n <= rate.align - npartial
    ensures Done(rate, start, data, i + n, out + data[i..i + n],
                 if npartial + n == rate.align then Carry(rate.gap, 0) else Carry(0, npartial + n))
  {
    DoneMore(rate, start, data, i, out, Carry(0, npartial), n);
    CopyBlock(rate, npartial, data[i..i + n]);
  }

  /** A buffer too short to complete the frame. */
  lemma TinyBuffer(rate: Rate, npartial: nat, data: seq<Byte>)
    requires npartial + |data| < rate.align
    ensures Done(rate, Carry(0, npartial), data, |data|, data, Carry(0, npartial + |data|))
  {
    assert data[..|data|] == data;
    if data != [] {
      CopyBlock(rate, npartial, data);
    }
  }

  /** A buffer long enough to complete it. */
  lemma PartialDone(rate: Rate, npartial: nat, data: seq<Byte>)
    requires 0 < rate.align - npartial <= |data|
    ensures var n := rate.align - npartial;
            Done(rate, Carry(0, npartial), data, n, data[..n], Carry(rate.gap, 0))
  {
    CopyBlock(rate, npartial, data[..rate.align - npartial]);
  }

  /** An audio pipeline buffer.  Its data lie from `curbyte` to `nbytes`. */
  class ApBuffer {
    const samp: array<Byte>
    var curbyte: nat
    var nbytes: nat

    predicate Valid()
      reads this
    {
      curbyte <= nbytes <= samp.Length
    }

    function Data(): seq<Byte>
      requires Valid()
      reads this, samp
    {
      samp[curbyte..nbytes]
    }

    constructor (samp: array<Byte>, curbyte: nat, nbytes: nat)
      requires curbyte <= nbytes <= samp.Length
      ensures Valid() && Data() == samp[curbyte..nbytes] && this.samp == samp
    {
      this.samp, this.curbyte, this.nbytes := samp, curbyte, nbytes;
    }
  }

  /** Copies bytes down, lowest first. */
  method CopyDown(samp: array<Byte>, dest: nat, src: nat, n: nat)
    requires dest <= src && src + n <= samp.Length
    modifies samp
    ensures samp[..dest + n] == old(samp[..dest]) + old(samp[src..src + n])
    ensures samp[src + n..] == old(samp[src + n..])
  {
    ghost var data := samp[src..src + n];
    for i := 0 to n
      invariant forall k :: 0 <= k < dest || src + i <= k < samp.Length ==> samp[k] == old(samp[k])
      invariant forall k :: dest <= k < dest + i ==> samp[k] == data[k - dest]
    {
      samp[dest + i] := samp[src + i];
    }
  }

  lemma NextSlice(samp: seq<Byte>, src: nat, end: nat, data: seq<Byte>, i: nat, n: nat)
    requires src + n <= end <= |samp| && i <= |data| && samp[src..end] == data[i..]
    ensures i + n <= |data| && samp[src..src + n] == data[i..i + n] && samp[src + n..end] == data[i + n..]
  {
    assert |data[i..]| == end - src;
    assert samp[src..src + n] == samp[src..end][..n] && samp[src + n..end] == samp[src..end][n..];
    assert data[i..i + n] == data[i..][..n] && data[i + n..] == data[i..][n..];
  }

  method CopyFrame(apb: ApBuffer, src: nat, dest: nat, n: nat, ghost data: seq<Byte>, ghost i: nat)
    requires apb.Valid() && dest <= src && src + n <= apb.nbytes
    requires i + n <= |data| && apb.samp[src..apb.nbytes] == data[i..]
    modifies apb.samp
    ensures apb.samp[..dest + n] == old(apb.samp[..dest]) + data[i..i + n]
    ensures apb.samp[src + n..apb.nbytes] == data[i + n..]
  {
    NextSlice(apb.samp[..], src, apb.nbytes, data, i, n);
    CopyDown(apb.samp, dest, src, n);
    assert apb.samp[src + n..apb.nbytes] == apb.samp[src + n..][..apb.nbytes - src - n];
  }

  /** What has been played since fast-forwarding began, and the carry, follow from the buffers
      handled. */
  ghost predicate Tracks(align: nat, carry: Carry, played: seq<Byte>, before: seq<Byte>, history: seq<Chunk>)
    requires align >= 1
  {
    && played == before + Played(align, Carry(0, 0), history)
    && carry == Reached(align, Carry(0, 0), history)
  }

  lemma TracksMore(align: nat, carry: Carry, played: seq<Byte>, before: seq<Byte>, history: seq<Chunk>, gap: nat,
                   data: seq<Byte>, out: seq<Byte>, carry': Carry)
    requires Fits(Rate(align, gap), carry) && Tracks(align, carry, played, before, history)
    requires Done(Rate(align, gap), carry, data, |data|, out, carry')
    ensures Tracks(align, carry', played + out, before, history + [Chunk(gap, data)])
  {
    assert data[..|data|] == data;
    OneMore(align, Carry(0, 0), history, Chunk(gap, data));
  }

  class Decoder {
    const align: nat
    var subsample: nat
    var skip: nat
    var npartial: nat
    var streaming: bool
    // What the lower driver has been given.
    var played: seq<Byte>
    // The buffers handled since fast-forwarding began, and what had been played by then.
    ghost var history: seq<Chunk>
    ghost var before: seq<Byte>

    ghost predicate Valid()
      reads this
    {
      && Fits(Rate(align, 0), Carry(skip, npartial))
      && (subsample > 0 ==> Tracks(align, Carry(skip, npartial), played, before, history))
      && (256 % align == 0 ==> WholeGaps(align, history))
    }

    /** At one rate, the bytes played since fast-forwarding began are those at the first `align`
        positions of each period of all that was received. */
    lemma PlaysSampled()
      requires Valid() && subsample > 0 && SameRate(Gap(align, subsample), history)
      ensures played == before + Sampled(align, align + Gap(align, subsample), 0, Bytes(history))
    {
      StreamIsSampled(align, subsample, history);
    }

    /** With frames of 1, 2 or 4 bytes, and at any rates, they are a selection of whole frames. */
    lemma PlaysFrames() returns (mask: seq<bool>)
      requires Valid() && subsample > 0 && 256 % align == 0
      ensures |mask| == |Bytes(history)| && played == before + Select(mask, Bytes(history))
      ensures forall i :: 0 <= i && i + 1 < |mask| && (i + 1) % align != 0 ==> mask[i] == mask[i + 1]
    {
      mask := RatesKeepFrames(align, history);
    }

    constructor (align: nat)
      requires align >= 1
      ensures Valid() && this.align == align && subsample == 0 && streaming && played == []
    {
      this.align := align;
      subsample, skip, npartial, streaming, played := 0, 0, 0, true, [];
      history, before := [], [];
    }

    /** Asks for another rate; zero is normal play. */
    method Configure(rate: nat)
      requires Valid()
      modifies this
      ensures Valid() && subsample == rate && streaming == old(streaming) && played == old(played)
      ensures old(subsample) == 0 < rate ==> history == [] && before == played
      ensures old(subsample) > 0 && rate > 0 ==> history == old(history) && before == old(before)
    {
      if subsample == 0 {
        if rate != 0 {
          npartial, skip := 0, 0;
          subsample := rate;
          history, before := [], played;
        }
      } else if rate == 0 {
        npartial, skip := 0, 0;
        subsample := 0;
      } else if subsample != rate {
        subsample := rate;
      }
    }

    /** Where a pass over a buffer stands: `i` bytes of `data` are done, `dest` bytes kept. */
    ghost predicate At(apb: ApBuffer, rate: Rate, start: Carry, data: seq<Byte>, i: nat, src: nat, dest: nat)
      requires Fits(rate, start)
      reads this, apb, apb.samp
    {
      && dest <= src <= apb.nbytes <= apb.samp.Length && i <= |data|
      && Done(rate, start, data, i, apb.samp[..dest], Carry(skip, npartial))
      && apb.samp[src..apb.nbytes] == data[i..]
    }

    /** Completes the frame that the last buffer left unfinished. */
    method FinishPartial(apb: ApBuffer, skipsize: nat, ghost data: seq<Byte>) returns (src: nat, dest: nat)
      requires apb.Valid() && apb.Data() == data && Fits(Rate(align, 0), Carry(skip, npartial))
      requires 0 < npartial && align <= npartial + |data|
      modifies this`skip, this`npartial, apb.samp
      ensures skip == skipsize && npartial == 0
      ensures src == apb.curbyte + align - old(npartial) && dest == align - old(npartial)
      ensures At(apb, Rate(align, skipsize), old(Carry(skip, npartial)), data, dest, src, dest)
    {
      var copysize := align - npartial;
      PartialDone(Rate(align, skipsize), npartial, data);
      if apb.curbyte > 0 {
        CopyFrame(apb, apb.curbyte, 0, copysize, data, 0);
      } else {
        assert apb.samp[copysize..apb.nbytes] == data[copysize..];
      }
      assert apb.samp[..copysize] == data[..copysize];
      src, dest := apb.curbyte + copysize, copysize;
      skip, npartial := skipsize, 0;
    }

    /** Skips bytes between frames. */
    method SkipAhead(apb: ApBuffer, src: nat, dest: nat, srcsize: nat, ghost rate: Rate, ghost start: Carry,
                     ghost data: seq<Byte>, ghost i: nat) returns (src': nat, srcsize': nat, ghost i': nat)
      requires Fits(rate, start) && At(apb, rate, start, data, i, src, dest)
      requires src + srcsize == apb.nbytes && skip > 0 && npartial == 0 && srcsize > 0
      modifies this`skip
      ensures srcsize' < srcsize && src' + srcsize' == apb.nbytes && At(apb, rate, start, data, i', src', dest)
    {
      var n := if skip < srcsize then skip else srcsize;
      NextSlice(apb.samp[..], src, apb.nbytes, data, i, n);
      DoneSkip(rate, start, data, i, apb.samp[..dest], skip, n);
      skip := skip - n;
      src', srcsize', i' := src + n, srcsize - n, i + n;
    }

    /** Copies a frame, or as much of one as the buffer holds. */
    method TakeFrame(apb: ApBuffer, skipsize: nat, src: nat, dest: nat, srcsize: nat, destsize: nat,
                     ghost start: Carry, ghost data: seq<Byte>, ghost i: nat)
      returns (src': nat, dest': nat, srcsize': nat, destsize': nat, ghost i': nat)
      requires Fits(Rate(align, skipsize), start) && At(apb, Rate(align, skipsize), start, data, i, src, dest)
      requires src + srcsize == apb.nbytes && skip == npartial == 0 && srcsize > 0 && apb.Valid()
      requires dest + destsize == apb.samp.Length
      modifies this`skip, this`npartial, apb.samp
      ensures srcsize' < srcsize && src' + srcsize' == apb.nbytes && (srcsize' > 0 ==> npartial == 0)
      ensures dest' + destsize' == apb.samp.Length
      ensures At(apb, Rate(align, skipsize), start, data, i', src', dest')
    {
      var n;
      if srcsize < align {
        n := srcsize;
        npartial := srcsize;
      } else {
        n := align;
        skip := skipsize;
      }
      NextSlice(apb.samp[..], src, apb.nbytes, data, i, n);
      DoneCopy(Rate(align, skipsize), start, data, i, apb.samp[..dest], 0, n);
      CopyFrame(apb, src, dest, n, data, i);
      src', dest', srcsize', destsize', i' := src + n, dest + n, srcsize - n, destsize - n, i + n;
    }

    method CopyFrames(apb: ApBuffer, skipsize: nat, from: nat, to: nat, ghost start: Carry, ghost data: seq<Byte>,
                      ghost done: nat)
      requires apb.Valid() && Fits(Rate(align, skipsize), start) && npartial == 0
      requires At(apb, Rate(align, skipsize), start, data, done, from, to)
      modifies this`skip, this`npartial, apb`curbyte, apb`nbytes, apb.samp
      ensures apb.Valid() && apb.curbyte == 0
      ensures Done(Rate(align, skipsize), start, data, |data|, apb.Data(), Carry(skip, npartial))
    {
      ghost var rate := Rate(align, skipsize);
      ghost var i: nat := done;
      var srcsize: nat, destsize: nat := apb.nbytes - from, apb.samp.Length - to;
      var src, dest := from, to;
      while srcsize > 0
        modifies this`skip, this`npartial, apb.samp
        invariant src + srcsize == apb.nbytes
        invariant 0 <= dest && dest + destsize == apb.samp.Length && (srcsize > 0 ==> npartial == 0)
        invariant At(apb, rate, start, data, i, src, dest)
      {
        if skip > 0 {
          src, srcsize, i := SkipAhead(apb, src, dest, srcsize, rate, start, data, i);
        } else {
          src, dest, srcsize, destsize, i := TakeFrame(apb, skipsize, src, dest, srcsize, destsize, start, data, i);
        }
      }
      assert |data[i..]| == 0;
      apb.curbyte := 0;
      apb.nbytes := apb.samp.Length - destsize;
    }

    /** Fast-forwards through a buffer, in place. */
    method Subsample(apb: ApBuffer)
      requires Fits(Rate(align, 0), Carry(skip, npartial)) && apb.Valid()
      modifies this`skip, this`npartial, apb`curbyte, apb`nbytes, apb.samp
      ensures apb.Valid()
      ensures subsample == 0 ==> apb.Data() == old(apb.Data()) && unchanged(this)
      ensures subsample > 0 ==>
                Done(Rate(align, Gap(align, subsample)), old(Carry(skip, npartial)), old(apb.Data()), |old(apb.Data())|,
                     apb.Data(), Carry(skip, npartial))
    {
      if subsample == 0 {
        return;
      }
      ghost var data, start := apb.Data(), Carry(skip, npartial);
      var skipsize := align * (subsample - 1) % 256;
      ghost var rate := Rate(align, skipsize);
      var src, dest := apb.curbyte, 0;
      assert At(apb, rate, start, data, 0, src, dest) by {
        assert data[0..] == data && apb.samp[..0] == [] && data[..0] == [];
      }
      if npartial > 0 {
        if npartial + (apb.nbytes - apb.curbyte) < align {
          npartial := npartial + (apb.nbytes - apb.curbyte);
          TinyBuffer(rate, start.npartial, data);
          return;
        }
        src, dest := FinishPartial(apb, skipsize, data);
      }
      CopyFrames(apb, skipsize, src, dest, start, data, dest);
    }

    /** Takes a buffer of the stream. */
    method EnqueueBuffer(apb: ApBuffer, final: bool)
      requires Valid() && apb.Valid() && streaming
      modifies this, apb, apb.samp
      ensures Valid() && subsample == old(subsample) && streaming == !final
      ensures subsample == 0 ==> played == old(played) + old(apb.Data())
      ensures subsample > 0 ==>
                before == old(before) && history == old(history) + [Chunk(Gap(align, subsample), old(apb.Data()))]
    {
      if final {
        streaming := false;
      }
      ghost var data, start := apb.Data(), Carry(skip, npartial);
      Subsample(apb);
      if subsample > 0 {
        var gap := Gap(align, subsample);
        TracksMore(align, start, played, before, history, gap, data, apb.Data(), Carry(skip, npartial));
        if 256 % align == 0 {
          GapIsWhole(align, subsample);
        }
        history := history + [Chunk(gap, data)];
      }
      played := played + apb.Data();
    }
  }
}
