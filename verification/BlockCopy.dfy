/** The `dd` command's transfer: whole sectors, read and written piece by piece, the last one padded
    with zeros, with sectors counted in 32 bits. */
module BlockCopy {
  import opened Wrappers

  /** A 32-bit counter wraps here. */
  const WRAP: nat := 0x1_0000_0000

  function Zeros(n: nat): seq<Byte> {
    seq(n, _ => 0)
  }

  /** The input in sectors. */
  function Sectors(input: seq<Byte>, size: nat): seq<seq<Byte>>
    requires size > 0
    decreases |input|
  {
    if input == [] then []
    else if |input| <= size then [input + Zeros(size - |input|)]
    else [input[..size]] + Sectors(input[size..], size)
  }

  function Flatten(sectors: seq<seq<Byte>>): seq<Byte> {
    if sectors == [] then [] else sectors[0] + Flatten(sectors[1..])
  }

  /** The sectors are the input, padded by less than one sector. */
  lemma {:induction false} SectorsAreInput(input: seq<Byte>, size: nat) returns (pad: nat)
    requires size > 0
    ensures pad < size && Flatten(Sectors(input, size)) == input + Zeros(pad)
    ensures forall i :: 0 <= i < |Sectors(input, size)| ==> |Sectors(input, size)[i]| == size
    decreases |input|
  {
    if input == [] {
      pad := 0;
    } else if |input| <= size {
      pad := size - |input|;
      var last := input + Zeros(pad);
      assert [last][1..] == [] && last + [] == last;
    } else {
      pad := SectorsAreInput(input[size..], size);
      assert input == input[..size] + input[size..];
      assert ([input[..size]] + Sectors(input[size..], size))[1..] == Sectors(input[size..], size);
    }
  }

  /** The sectors that a transfer writes, with the number of the first one in 32 bits. */
  function Chosen<T>(sectors: seq<T>, sector: nat, skip: nat, count: nat): seq<T>
    decreases |sectors|
  {
    if sectors == [] || count == 0 then []
    else if sector >= skip then [sectors[0]] + Chosen(sectors[1..], (sector + 1) % WRAP, skip, count - 1)
    else Chosen(sectors[1..], (sector + 1) % WRAP, skip, count)
  }

  function Min(a: nat, b: nat): nat {
    if a < b then a else b
  }

  /** The sectors asked for: from `skip`, at most `count`. */
  function Window<T>(sectors: seq<T>, skip: nat, count: nat): seq<T> {
    if skip >= |sectors| then [] else sectors[skip..Min(skip + count, |sectors|)]
  }

  lemma {:induction false} ChosenRest<T>(sectors: seq<T>, sector: nat, skip: nat, count: nat)
    requires skip <= sector <= WRAP && (skip == 0 || sector + Min(count, |sectors|) <= WRAP)
    ensures Chosen(sectors, sector % WRAP, skip, count) == sectors[..Min(count, |sectors|)]
    decreases |sectors|
  {
    if sectors != [] && count > 0 {
      var next := if sector < WRAP then sector + 1 else 1;
      assert (sector % WRAP + 1) % WRAP == next % WRAP;
      ChosenRest(sectors[1..], next, skip, count - 1);
    }
  }

  lemma {:induction false} ChosenSkips<T>(sectors: seq<T>, sector: nat, skip: nat, count: nat)
    requires sector <= skip < WRAP
    ensures Chosen(sectors, sector, skip, count) ==
            if skip - sector <= |sectors| then Chosen(sectors[skip - sector..], skip, skip, count) else []
    decreases |sectors|
  {
    if sector < skip && sectors != [] && count > 0 {
      ChosenSkips(sectors[1..], sector + 1, skip, count);
      assert (sector + 1) % WRAP == sector + 1;
      assert skip - sector <= |sectors| ==> sectors[1..][skip - sector - 1..] == sectors[skip - sector..];
    }
  }

  lemma WindowFrom<T>(sectors: seq<T>, skip: nat, count: nat)
    requires skip <= |sectors|
    ensures Window(sectors, skip, count) == sectors[skip..][..Min(count, |sectors| - skip)]
  {
  }

  /** The sectors written are those asked for, unless the counter wraps in the middle of them. */
  lemma ChosenIsWindow<T>(sectors: seq<T>, skip: nat, count: nat)
    requires skip < WRAP && (skip == 0 || skip + count <= WRAP || |sectors| <= WRAP)
    ensures Chosen(sectors, 0, skip, count) == Window(sectors, skip, count)
  {
    ChosenSkips(sectors, 0, skip, count);
    if skip <= |sectors| {
      ChosenRest(sectors[skip..], skip, skip, count);
      assert skip % WRAP == skip;
      WindowFrom(sectors, skip, count);
    }
  }

  /** Whatever sector is written has a number, in 32 bits, that is not skipped. */
  lemma {:induction false} ChosenNumbers(numbers: seq<nat>, sector: nat, skip: nat, count: nat)
    requires forall k :: 0 <= k < |numbers| ==> numbers[k] == sector + k
    ensures forall x :: x in Chosen(numbers, sector % WRAP, skip, count) ==> x % WRAP >= skip
    decreases |numbers|
  {
    if numbers != [] {
      var rest := numbers[1..];
      assert forall k :: 0 <= k < |rest| ==> rest[k] == sector + 1 + k;
      ChosenNumbers(rest, sector + 1, skip, count);
      if count > 0 {
        ChosenNumbers(rest, sector + 1, skip, count - 1);
      }
      assert (sector % WRAP + 1) % WRAP == (sector + 1) % WRAP;
      assert numbers[0] == sector;
    }
  }

  /** The transfer takes the window that was asked for. */
  ghost predicate TakesWindow(total: nat, skip: nat, count: nat) {
    forall xs: seq<nat> :: |xs| == total ==> Chosen(xs, 0, skip, count) == Window(xs, skip, count)
  }

  /** It does so exactly when nothing is skipped, the window ends before the counter wraps, or the
      input does. */
  lemma WindowExact(total: nat, skip: nat, count: nat)
    requires skip < WRAP && count < WRAP
    ensures TakesWindow(total, skip, count) <==> skip == 0 || skip + count <= WRAP || total <= WRAP
  {
    if skip == 0 || skip + count <= WRAP || total <= WRAP {
      forall xs: seq<nat> | |xs| == total
        ensures Chosen(xs, 0, skip, count) == Window(xs, skip, count)
      {
        ChosenIsWindow(xs, skip, count);
      }
    } else {
      var numbers: seq<nat> := seq(total, (i: nat) => i);
      ChosenNumbers(numbers, 0, skip, count);
      assert Window(numbers, skip, count)[WRAP - skip] == WRAP;
      assert WRAP !in Chosen(numbers, 0, skip, count);
    }
  }

  // ----- the transfer -----

  /** What is still to be written, with `rest` to be read; nothing for sectors of no size. */
  function ToWrite(rest: seq<Byte>, size: nat, sector: nat, skip: nat, count: nat): seq<Byte> {
    if size == 0 then [] else Flatten(Chosen(Sectors(rest, size), sector, skip, count))
  }

  /** One sector on. */
  lemma ToWriteNext(rest: seq<Byte>, size: nat, sector: nat, skip: nat, count: nat, first: seq<Byte>, n: nat)
    requires size > 0 && rest != [] && n == Min(size, |rest|) && first == rest[..n] + Zeros(size - n) && count > 0
    ensures ToWrite(rest, size, sector, skip, count) ==
            if sector >= skip then first + ToWrite(rest[n..], size, (sector + 1) % WRAP, skip, count - 1)
            else ToWrite(rest[n..], size, (sector + 1) % WRAP, skip, count)
  {
    var all := Sectors(rest, size);
    assert all[0] == first && all[1..] == Sectors(rest[n..], size) by {
      if |rest| <= size {
        assert rest[..n] == rest && rest[n..] == [];
      } else {
        assert rest[..n] + Zeros(0) == rest[..n];
      }
    }
    if sector >= skip {
      var later := Chosen(all[1..], (sector + 1) % WRAP, skip, count - 1);
      assert ([first] + later)[1..] == later;
    }
  }

  /** With no wrap in the way, the sectors written are those of the window asked for. */
  lemma CopyIsWindow(input: seq<Byte>, size: nat, skip: nat, count: nat)
    requires size > 0 && skip < WRAP
    requires skip == 0 || skip + count <= WRAP || |Sectors(input, size)| <= WRAP
    ensures ToWrite(input, size, 0, skip, count) == Flatten(Window(Sectors(input, size), skip, count))
  {
    ChosenIsWindow(Sectors(input, size), skip, count);
  }

  /** Asked for everything, the transfer copies the input and pads it by less than a sector. */
  lemma CopyIsInput(input: seq<Byte>, size: nat, count: nat) returns (pad: nat)
    requires size > 0 && count >= |Sectors(input, size)|
    ensures pad < size && ToWrite(input, size, 0, 0, count) == input + Zeros(pad)
  {
    var all := Sectors(input, size);
    ChosenIsWindow(all, 0, count);
    assert Window(all, 0, count) == all;
    pad := SectorsAreInput(input, size);
  }

  lemma Slices(s: seq<Byte>, a: nat, b: nat, c: nat)
    requires a <= b <= c <= |s|
    ensures s[a..c] == s[a..b] + s[b..c]
  {
  }

  lemma NextPart(buffer: seq<Byte>, output: seq<Byte>, at: nat, n: nat)
    requires at + n <= |buffer|
    ensures output + buffer[..at] + buffer[at..at + n] == output + buffer[..at + n]
  {
    assert buffer[..at + n] == buffer[..at] + buffer[at..at + n];
  }

  class Transfer {
    // The input file, how much of it has been read, and the output file.
    const input: seq<Byte>
    var pos: nat
    var output: seq<Byte>
    // Whether a read or a write has returned a negative number.
    ghost var failed: bool

    var nsectors: nat
    var sector: nat
    const skip: nat
    var eof: bool
    const sectsize: nat
    var nbytes: nat
    const buffer: array<Byte>

    ghost predicate Valid()
      reads this
    {
      && pos <= |input| && sectsize == buffer.Length
      && nsectors < WRAP && sector < WRAP && skip < WRAP
    }

    constructor (input: seq<Byte>, sectsize: nat, skip: nat, count: nat)
      requires sectsize < 0x1_0000 && skip < WRAP && count < WRAP
      ensures Valid() && fresh(buffer) && this.input == input && this.sectsize == sectsize && this.skip == skip
      ensures pos == 0 && output == [] && nsectors == count && sector == 0 && !eof && !failed
    {
      this.input, pos, output, failed := input, 0, [], false;
      nsectors, sector, this.skip, eof := count, 0, skip, false;
      this.sectsize, nbytes, buffer := sectsize, 0, new Byte[sectsize];
    }

    /** Reads some bytes, at least one unless the input has ended, or fails. */
    method Read(at: nat, n: nat) returns (r: int)
      requires Valid() && at + n <= buffer.Length && n > 0
      modifies this`pos, this`failed, buffer
      ensures Valid() && r <= n && pos == (if r < 0 then old(pos) else old(pos) + r)
      ensures failed == (old(failed) || r < 0)
      ensures r == 0 ==> pos == |input|
      ensures r >= 0 ==> buffer[..at + r] == old(buffer[..at]) + input[old(pos)..pos]
    {
      var left := if n < |input| - pos then n else |input| - pos;
      var k: int :| -1 <= k <= left && (k == 0 ==> left == 0);
      r, failed := k, failed || k < 0;
      if r > 0 {
        forall i | at <= i < at + r {
          buffer[i] := input[pos + (i - at)];
        }
        pos := pos + r;
      }
    }

    /** Writes some bytes, at least one, or fails. */
    method Write(at: nat, n: nat) returns (r: int)
      requires at + n <= buffer.Length && n > 0
      modifies this`output, this`failed
      ensures failed == (old(failed) || r < 0)
      ensures r <= n && r != 0 && output == if r < 0 then old(output) else old(output) + buffer[at..at + r]
    {
      var k: int :| -1 <= k <= n && k != 0;
      r, failed := k, failed || k < 0;
      if r > 0 {
        output := output + buffer[at..at + r];
      }
    }

    /** Reads a sector, or what is left of the input; fails exactly if a read does. */
    method DdRead() returns (ok: bool)
      requires Valid() && !eof && !failed
      modifies this`pos, this`nbytes, this`eof, this`failed, buffer
      ensures Valid() && (ok <==> !failed)
      ensures ok ==> nbytes == Min(sectsize, |input| - old(pos)) && pos == old(pos) + nbytes
      ensures ok ==> buffer[..nbytes] == input[old(pos)..pos] && eof == (nbytes == 0)
    {
      nbytes := 0;
      var more := true;
      while nbytes < sectsize && more
        invariant Valid() && nbytes <= sectsize && pos == old(pos) + nbytes && !eof && !failed
        invariant buffer[..nbytes] == input[old(pos)..pos]
        invariant !more ==> pos == |input|
        decreases more, sectsize - nbytes
      {
        var r := Read(nbytes, sectsize - nbytes);
        if r < 0 {
          return false;
        }
        Slices(input, old(pos), pos - r, pos);
        nbytes := nbytes + r;
        more := r > 0;
      }
      eof := eof || nbytes == 0;
      ok := true;
    }

    /** Writes the sector in the buffer; fails exactly if a write does. */
    method DdWrite() returns (ok: bool)
      requires Valid() && !failed
      modifies this`output, this`failed
      ensures ok <==> !failed
      ensures ok ==> output == old(output) + buffer[..]
      ensures !ok ==> old(output) <= output <= old(output) + buffer[..]
    {
      var written: nat := 0;
      while written < sectsize
        invariant written <= sectsize && output == old(output) + buffer[..written] && !failed
      {
        var r := Write(written, sectsize - written);
        if r < 0 {
          NextPart(buffer[..], old(output), written, sectsize - written);
          return false;
        }
        NextPart(buffer[..], old(output), written, r);
        written := written + r;
      }
      assert buffer[..written] == buffer[..];
      ok := true;
    }

    /** Pads the sector in the buffer with zeros. */
    method Pad()
      requires Valid() && nbytes <= sectsize
      modifies buffer
      ensures buffer[..] == old(buffer[..nbytes]) + Zeros(sectsize - nbytes)
    {
      for i := nbytes to sectsize
        invariant forall k :: 0 <= k < nbytes ==> buffer[k] == old(buffer[k])
        invariant forall k :: nbytes <= k < i ==> buffer[k] == 0
      {
        buffer[i] := 0;
      }
    }

    /** Writes the sector in the buffer unless it is to be skipped, and goes on to the next. */
    method PutSector(ghost rest: seq<Byte>, ghost n: nat) returns (ok: bool)
      requires Valid() && sectsize > 0 && rest != [] && n == Min(sectsize, |rest|) && nsectors > 0
      requires buffer[..] == rest[..n] + Zeros(sectsize - n) && !failed
      modifies this`output, this`nsectors, this`sector, this`failed
      ensures ok <==> !failed
      ensures Valid() && output <= old(output + ToWrite(rest, sectsize, sector, skip, nsectors))
      ensures ok ==> output + ToWrite(rest[n..], sectsize, sector, skip, nsectors) ==
                     old(output + ToWrite(rest, sectsize, sector, skip, nsectors))
    {
      hide ToWrite, Zeros;
      ToWriteNext(rest, sectsize, sector, skip, nsectors, buffer[..], n);
      if sector >= skip {
        ok := DdWrite();
        if !ok {
          return;
        }
        nsectors := nsectors - 1;
      }
      sector := (sector + 1) % WRAP;
      ok := true;
    }

    /** Copies: succeeds exactly if every read and write does, however short they are.  Then the output
        is the sectors chosen, and otherwise a first part of them. */
    method Copy() returns (ok: bool)
      requires Valid() && pos == sector == 0 && output == [] && !eof && !failed
      modifies this, buffer
      ensures ok <==> !failed
      ensures ok ==> output == old(ToWrite(input, sectsize, 0, skip, nsectors))
      ensures output <= old(ToWrite(input, sectsize, 0, skip, nsectors))
    {
      ghost var goal := ToWrite(input, sectsize, 0, skip, nsectors);
      assert input[pos..] == input;
      while !eof && nsectors > 0
        invariant Valid() && goal == output + ToWrite(input[pos..], sectsize, sector, skip, nsectors)
        invariant (eof ==> pos == |input| || sectsize == 0) && !failed
        decreases !eof, |input| - pos
      {
        ghost var rest := input[pos..];
        ok := DdRead();
        if !ok {
          return;
        }
        if !eof {
          assert rest[..nbytes] == buffer[..nbytes] && rest[nbytes..] == input[pos..];
          Pad();
          ok := PutSector(rest, nbytes);
          if !ok {
            return;
          }
        }
      }
      ok := true;
    }
  }
}
