/** Copying an argument vector into one allocation: a table of pointers, and after it the strings. */
module CopyArgv {
  import opened Wrappers

  const MAX_EXEC_ARGS: nat := 256

  datatype Status = OK | TooBig | NoMemory

  /** One byte of the allocation: a character, the first byte of a pointer, or a later one. */
  datatype Cell = Char(c: char) | Pointer(to: Option<nat>) | Rest

  ghost predicate AreStrings(args: seq<string>) {
    forall i :: 0 <= i < |args| ==> NUL !in args[i]
  }

  function Cells(s: string): seq<Cell> {
    seq(|s|, i requires 0 <= i < |s| => Char(s[i]))
  }

  /** The strings one after the other, each closed by a NUL. */
  function Joined(args: seq<string>): string {
    if args == [] then "" else Joined(args[..|args| - 1]) + args[|args| - 1] + [NUL]
  }

  /** Where a string begins in what is joined. */
  function Offset(args: seq<string>, i: nat): nat
    requires i <= |args|
  {
    |Joined(args[..i])|
  }

  lemma JoinedNext(args: seq<string>, i: nat)
    requires i < |args|
    ensures Joined(args[..i + 1]) == Joined(args[..i]) + args[i] + [NUL]
    ensures Offset(args, i + 1) == Offset(args, i) + |args[i]| + 1
  {
    assert args[..i + 1][..i] == args[..i];
  }

  lemma {:induction false} JoinedPrefix(args: seq<string>, i: nat)
    requires i <= |args|
    ensures Joined(args[..i]) <= Joined(args)
    decreases |args| - i
  {
    if i == |args| {
      assert args[..i] == args;
    } else {
      JoinedNext(args, i);
      JoinedPrefix(args, i + 1);
    }
  }

  // ----- reading back -----

  /** The C string at an offset: the characters up to the first NUL. */
  function CString(buf: seq<Cell>, at: nat): string
    requires at <= |buf|
    decreases |buf| - at
  {
    if at == |buf| || !buf[at].Char? || buf[at].c == NUL then "" else [buf[at].c] + CString(buf, at + 1)
  }

  lemma CharOf(buf: seq<Cell>, base: nat, before: string, s: string, all: string, k: nat)
    requires base <= |buf| && buf[base..] == Cells(all) && before + s + [NUL] <= all && k <= |s|
    ensures base + |before| + k < |buf| && buf[base + |before| + k] == Char(if k < |s| then s[k] else NUL)
  {
    var first := before + s + [NUL];
    assert buf[base + |before| + k] == buf[base..][|before| + k];
    assert all[|before| + k] == first[|before| + k];
  }

  lemma {:induction false} ReadsFrom(buf: seq<Cell>, base: nat, before: string, s: string, all: string, k: nat)
    requires base <= |buf| && buf[base..] == Cells(all) && before + s + [NUL] <= all && NUL !in s && k <= |s|
    ensures base + |before| + k < |buf| && CString(buf, base + |before| + k) == s[k..]
    decreases |s| - k
  {
    CharOf(buf, base, before, s, all, k);
    if k < |s| {
      ReadsFrom(buf, base, before, s, all, k + 1);
      assert s[k..] == [s[k]] + s[k + 1..];
    }
  }

  /** Every string reads back from its place, and the next begins right behind its NUL. */
  lemma ReadsBack(args: seq<string>, i: nat, buf: seq<Cell>, base: nat)
    requires AreStrings(args) && i < |args| && base <= |buf| && buf[base..] == Cells(Joined(args))
    ensures base + Offset(args, i + 1) <= |buf| && Offset(args, i + 1) == Offset(args, i) + |args[i]| + 1
    ensures CString(buf, base + Offset(args, i)) == args[i]
  {
    JoinedNext(args, i);
    JoinedPrefix(args, i + 1);
    ReadsFrom(buf, base, Joined(args[..i]), args[i], Joined(args), 0);
  }

  /** Where the i-th pointer of the table begins. */
  function Slot(word: nat, i: nat): nat {
    word * i
  }

  lemma SlotNext(word: nat, i: nat)
    ensures Slot(word, i + 1) == Slot(word, i) + word
  {
  }

  lemma {:induction false} SlotBefore(word: nat, j: nat, i: nat)
    requires j < i
    ensures Slot(word, j) + word <= Slot(word, i)
    decreases i - j
  {
    SlotNext(word, j);
    if j + 1 < i {
      SlotBefore(word, j + 1, i);
    }
  }

  /** The i-th pointer leads to the i-th string, which lies behind the table and ends where the next
      begins. */
  ghost predicate ReadsAt(args: seq<string>, i: nat, buf: seq<Cell>, word: nat)
    requires i < |args|
  {
    var base := Slot(word, |args| + 1);
    && Slot(word, i) + word <= base && base + Offset(args, i + 1) <= |buf| && Slot(word, i) < |buf|
    && buf[Slot(word, i)] == Pointer(Some(base + Offset(args, i)))
    && Offset(args, i + 1) == Offset(args, i) + |args[i]| + 1
    && CString(buf, base + Offset(args, i)) == args[i]
  }

  /** The copy: a pointer for every string and a null one, strings that follow the table and each
      other without a gap, and an allocation that they fill. */
  ghost predicate Copied(args: seq<string>, buf: seq<Cell>, word: nat) {
    && Slot(word, |args|) + word == Slot(word, |args| + 1) && Slot(word, |args|) < |buf|
    && buf[Slot(word, |args|)] == Pointer(None)
    && Offset(args, 0) == 0 && Slot(word, |args| + 1) + Offset(args, |args|) == |buf|
    && forall i :: 0 <= i < |args| ==> ReadsAt(args, i, buf, word)
  }

  // ----- the two passes -----

  /** The first pass: counts the arguments and the bytes they need. */
  method Measure(args: seq<string>) returns (nargs: nat, argsize: nat, ok: bool)
    ensures ok <==> |args| <= MAX_EXEC_ARGS
    ensures ok ==> nargs == |args| && argsize == |Joined(args)|
  {
    nargs, argsize := 0, 0;
    while nargs < |args|
      invariant nargs <= |args| && nargs <= MAX_EXEC_ARGS && argsize == |Joined(args[..nargs])|
    {
      JoinedNext(args, nargs);
      argsize := argsize + |args[nargs]| + 1;
      nargs := nargs + 1;
      if nargs > MAX_EXEC_ARGS {
        return nargs, argsize, false;
      }
    }
    assert args[..nargs] == args;
    ok := true;
  }

  /** Writes a pointer, byte by byte. */
  method StorePointer(buf: array<Cell>, at: nat, word: nat, to: Option<nat>)
    requires word >= 1 && at + word <= buf.Length
    modifies buf
    ensures buf[at] == Pointer(to)
    ensures forall k :: 0 <= k < at || at + word <= k < buf.Length ==> buf[k] == old(buf[k])
  {
    buf[at] := Pointer(to);
    for k := at + 1 to at + word
      invariant buf[at] == Pointer(to)
      invariant forall i :: 0 <= i < at || at + word <= i < buf.Length ==> buf[i] == old(buf[i])
    {
      buf[k] := Rest;
    }
  }

  /** Writes a string and its NUL. */
  method Place(buf: array<Cell>, ptr: nat, s: string)
    requires ptr + |s| + 1 <= buf.Length
    modifies buf
    ensures buf[..ptr + |s| + 1] == old(buf[..ptr]) + Cells(s + [NUL])
  {
    ghost var t := s + [NUL];
    for k := 0 to |s|
      invariant forall i :: 0 <= i < ptr ==> buf[i] == old(buf[i])
      invariant forall i :: ptr <= i < ptr + k ==> buf[i] == Char(t[i - ptr])
    {
      buf[ptr + k] := Char(s[k]);
    }
    buf[ptr + |s|] := Char(NUL);
  }

  /** After `i` strings: the first pointers of the table, and the strings behind it. */
  ghost predicate Filled(args: seq<string>, i: nat, buf: seq<Cell>, word: nat, ptr: nat) {
    var base := Slot(word, |args| + 1);
    && i <= |args| && ptr == base + Offset(args, i) <= |buf|
    && buf[base..ptr] == Cells(Joined(args[..i]))
    && forall j :: 0 <= j < i ==> Slot(word, j) < base && buf[Slot(word, j)] == Pointer(Some(base + Offset(args, j)))
  }

  lemma CellsAppend(a: string, b: string)
    ensures Cells(a + b) == Cells(a) + Cells(b)
  {
  }

  /** One more pointer in the table, which disturbs neither the others nor the strings. */
  lemma PointerStored(args: seq<string>, i: nat, buf: seq<Cell>, buf': seq<Cell>, word: nat, ptr: nat)
    requires Filled(args, i, buf, word, ptr) && i < |args| && word >= 1 && |buf'| == |buf|
    requires Slot(word, i) + word <= Slot(word, |args| + 1) && buf'[Slot(word, i)] == Pointer(Some(ptr))
    requires forall k :: 0 <= k < Slot(word, i) || Slot(word, i) + word <= k < |buf| ==> buf'[k] == buf[k]
    ensures ptr <= |buf| && buf'[Slot(word, |args| + 1)..ptr] == Cells(Joined(args[..i]))
    ensures forall j :: 0 <= j <= i ==>
              Slot(word, j) < Slot(word, |args| + 1) &&
              buf'[Slot(word, j)] == Pointer(Some(Slot(word, |args| + 1) + Offset(args, j)))
  {
    hide Joined, Cells, Slot;
    var base := Slot(word, |args| + 1);
    assert buf'[base..ptr] == buf[base..ptr];
    forall j | 0 <= j <= i
      ensures Slot(word, j) < base && buf'[Slot(word, j)] == Pointer(Some(base + Offset(args, j)))
    {
      if j < i {
        SlotBefore(word, j, i);
      }
    }
  }

  /** One more string behind the others, which disturbs neither them nor the table. */
  lemma StringPlaced(args: seq<string>, i: nat, buf: seq<Cell>, buf': seq<Cell>, word: nat, ptr: nat)
    requires i < |args| && ptr == Slot(word, |args| + 1) + Offset(args, i) && ptr + |args[i]| + 1 <= |buf| == |buf'|
    requires buf[Slot(word, |args| + 1)..ptr] == Cells(Joined(args[..i]))
    requires forall j :: 0 <= j <= i ==>
               Slot(word, j) < Slot(word, |args| + 1) &&
               buf[Slot(word, j)] == Pointer(Some(Slot(word, |args| + 1) + Offset(args, j)))
    requires buf'[..ptr + |args[i]| + 1] == buf[..ptr] + Cells(args[i] + [NUL])
    ensures Filled(args, i + 1, buf', word, ptr + |args[i]| + 1)
  {
    hide Slot;
    var base, end := Slot(word, |args| + 1), ptr + |args[i]| + 1;
    JoinedNext(args, i);
    CellsAppend(Joined(args[..i]), args[i] + [NUL]);
    assert Joined(args[..i + 1]) == Joined(args[..i]) + (args[i] + [NUL]);
    assert buf'[base..end] == buf'[..end][base..] == buf[base..ptr] + Cells(args[i] + [NUL]);
    forall j | 0 <= j < i + 1
      ensures Slot(word, j) < base && buf'[Slot(word, j)] == Pointer(Some(base + Offset(args, j)))
    {
      assert buf'[Slot(word, j)] == buf'[..end][Slot(word, j)];
    }
  }

  /** The pointers of a table that is complete but for its end. */
  ghost predicate Points(args: seq<string>, buf: seq<Cell>, word: nat) {
    forall j :: 0 <= j < |args| ==>
      Slot(word, j) < |buf| && buf[Slot(word, j)] == Pointer(Some(Slot(word, |args| + 1) + Offset(args, j)))
  }

  lemma AllFilled(args: seq<string>, buf: seq<Cell>, word: nat, ptr: nat)
    requires Filled(args, |args|, buf, word, ptr) && |buf| == Slot(word, |args| + 1) + |Joined(args)|
    ensures buf[Slot(word, |args| + 1)..] == Cells(Joined(args)) && Points(args, buf, word)
  {
    hide Joined, Cells, Slot;
    assert args[..|args|] == args;
    assert buf[Slot(word, |args| + 1)..ptr] == buf[Slot(word, |args| + 1)..];
  }

  /** The null pointer that ends the table disturbs neither the others nor the strings. */
  lemma Closed(args: seq<string>, buf: seq<Cell>, buf': seq<Cell>, word: nat)
    requires |buf'| == |buf| && Slot(word, |args| + 1) <= |buf| && Points(args, buf, word) && word >= 1
    requires forall k :: 0 <= k < Slot(word, |args|) || Slot(word, |args|) + word <= k < |buf| ==> buf'[k] == buf[k]
    ensures buf'[Slot(word, |args| + 1)..] == buf[Slot(word, |args| + 1)..] && Points(args, buf', word)
  {
    hide Joined, Slot;
    SlotNext(word, |args|);
    forall j | 0 <= j < |args|
      ensures Slot(word, j) < |buf'| && buf'[Slot(word, j)] == buf[Slot(word, j)]
    {
      SlotBefore(word, j, |args|);
    }
  }

  /** The second pass: points the table at the strings and copies them, all in one allocation. */
  method Fill(args: seq<string>, buf: array<Cell>, word: nat)
    requires word >= 1 && buf.Length == Slot(word, |args| + 1) + |Joined(args)|
    modifies buf
    ensures buf[Slot(word, |args| + 1)..] == Cells(Joined(args)) && buf[Slot(word, |args|)] == Pointer(None)
    ensures Points(args, buf[..], word)
  {
    hide Slot;
    var ptr: nat, i: nat := Slot(word, |args| + 1), 0;
    assert buf[ptr..ptr] == Cells(Joined(args[..0]));
    while i < |args|
      invariant Filled(args, i, buf[..], word, ptr)
    {
      SlotBefore(word, i, |args| + 1);
      JoinedNext(args, i);
      JoinedPrefix(args, i + 1);
      ghost var b0 := buf[..];
      StorePointer(buf, Slot(word, i), word, Some(ptr));
      ghost var b1 := buf[..];
      PointerStored(args, i, b0, b1, word, ptr);
      Place(buf, ptr, args[i]);
      StringPlaced(args, i, b1, buf[..], word, ptr);
      ptr := ptr + |args[i]| + 1;
      i := i + 1;
    }
    SlotNext(word, i);
    ghost var b2 := buf[..];
    AllFilled(args, b2, word, ptr);
    StorePointer(buf, Slot(word, i), word, None);
    Closed(args, b2, buf[..], word);
  }

  lemma ReadsAll(args: seq<string>, buf: seq<Cell>, word: nat)
    requires AreStrings(args) && word >= 1 && |buf| == Slot(word, |args| + 1) + |Joined(args)|
    requires buf[Slot(word, |args| + 1)..] == Cells(Joined(args))
    requires Slot(word, |args|) < |buf| && buf[Slot(word, |args|)] == Pointer(None)
    requires Points(args, buf, word)
    ensures Copied(args, buf, word)
  {
    SlotNext(word, |args|);
    assert args[..|args|] == args && args[..0] == [];
    forall i | 0 <= i < |args|
      ensures ReadsAt(args, i, buf, word)
    {
      SlotBefore(word, i, |args| + 1);
      ReadsBack(args, i, buf, Slot(word, |args| + 1));
    }
  }

  /** The image of a program to be run: where its arguments have been put. */
  class Binary {
    // The allocation, and where in it the table of pointers begins.
    var argbuffer: array?<Cell>
    var argv: Option<nat>

    constructor ()
      ensures argv == None && argbuffer == null
    {
      argv, argbuffer := None, null;
    }

    /** Copies an argument vector; `word` is the size of a pointer and `memory` says whether the
        allocation can be had. */
    method Copy(args: Option<seq<string>>, word: nat, memory: bool) returns (ret: Status)
      requires word >= 1 && (args.Some? ==> AreStrings(args.value))
      modifies this
      ensures ret == if args.None? || args.value == [] then OK
                     else if |args.value| > MAX_EXEC_ARGS then TooBig
                     else if memory then OK else NoMemory
      ensures argbuffer != null <==> ret.OK? && args.Some? && args.value != []
      ensures argv == if argbuffer != null then Some(0) else None
      ensures argbuffer != null ==> Copied(args.value, argbuffer[..], word)
    {
      argv, argbuffer := None, null;
      if args.Some? {
        var nargs, argsize, ok := Measure(args.value);
        if !ok {
          return TooBig;
        }
        if argsize > 0 {
          if !memory {
            return NoMemory;
          }
          var argvsize := Slot(word, nargs + 1);
          var buf := new Cell[argvsize + argsize](_ => Rest);
          Fill(args.value, buf, word);
          ReadsAll(args.value, buf[..], word);
          argbuffer, argv := buf, Some(0);
        }
      }
      ret := OK;
    }
  }
}
