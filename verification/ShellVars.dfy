/** The variables of a shell session, in the packed buffer that holds them: the buffer is searched,
    closed up, grown and visited in place, and always holds the list of pairs. */
module ShellVars {
  import opened Wrappers
  import opened VarPairs

  /** A pair lies at an offset of the buffer, with its NUL. */
  ghost predicate Lies(buf: string, ptr: nat, p: Pair) {
    && ptr + |Text(p)| < |buf|
    && buf[ptr..ptr + |Text(p)|] == Text(p)
    && buf[ptr + |Text(p)|] == NUL
  }

  lemma LiesName(buf: string, ptr: nat, p: Pair, i: nat)
    requires Lies(buf, ptr, p) && i <= |p.name|
    ensures ptr + i < |buf| && buf[ptr + i] == if i < |p.name| then p.name[i] else '='
  {
    assert buf[ptr + i] == buf[ptr..ptr + |Text(p)|][i] == Text(p)[i];
  }

  lemma LiesText(buf: string, ptr: nat, p: Pair, i: nat)
    requires Lies(buf, ptr, p) && IsPair(p) && i <= |Text(p)|
    ensures ptr + i < |buf| && (buf[ptr + i] == NUL <==> i == |Text(p)|)
  {
    if i < |Text(p)| {
      assert buf[ptr + i] == buf[ptr..ptr + |Text(p)|][i] == Text(p)[i];
    }
  }

  lemma LiesIn(buf: string, a: string, p: Pair, b: string)
    requires |a| + |Entry(p)| + |b| <= |buf| && buf[..|a| + |Entry(p)| + |b|] == a + Entry(p) + b
    ensures Lies(buf, |a|, p)
  {
    var all, n := a + Entry(p) + b, |Text(p)|;
    assert buf[|a|..|a| + n] == all[|a|..|a| + n] == Text(p);
    assert buf[|a| + n] == all[|a| + n];
  }

  /** The k-th pair lies right after the pairs before it. */
  lemma PairLies(buf: string, pairs: seq<Pair>, k: nat)
    requires k < |pairs| && |Packed(pairs)| <= |buf| && buf[..|Packed(pairs)|] == Packed(pairs)
    ensures Lies(buf, |Packed(pairs[..k])|, pairs[k])
  {
    assert pairs == pairs[..k] + [pairs[k]] + pairs[k + 1..];
    PackedSplit(pairs[..k], pairs[k], pairs[k + 1..]);
    LiesIn(buf, Packed(pairs[..k]), pairs[k], Packed(pairs[k + 1..]));
  }

  lemma PackedNext(pairs: seq<Pair>, k: nat)
    requires k < |pairs|
    ensures |Packed(pairs[..k + 1])| == |Packed(pairs[..k])| + |Text(pairs[k])| + 1
    ensures |Packed(pairs[..k + 1])| <= |Packed(pairs)|
    ensures |Packed(pairs[..k + 1])| == |Packed(pairs)| <==> k + 1 == |pairs|
  {
    assert pairs == pairs[..k] + [pairs[k]] + pairs[k + 1..] && pairs[..k + 1] == pairs[..k] + [pairs[k]];
    PackedSplit(pairs[..k], pairs[k], pairs[k + 1..]);
  }

  /** The character at a place of a string that ends in a NUL. */
  function CharAt(s: string, i: nat): char
    requires i <= |s|
  {
    if i < |s| then s[i] else NUL
  }

  lemma LiesChar(buf: string, ptr: nat, p: Pair, i: nat)
    requires Lies(buf, ptr, p) && i <= |Text(p)|
    ensures ptr + i < |buf| && buf[ptr + i] == CharAt(Text(p), i)
  {
    if i < |Text(p)| {
      assert buf[ptr + i] == buf[ptr..ptr + |Text(p)|][i] == Text(p)[i];
    }
  }

  /** Where the comparison stopped decides. */
  lemma Stopped(name: string, text: string, i: nat)
    requires NUL !in name && i <= |name| && i <= |text| && name[..i] == text[..i] && CharAt(name, i) != CharAt(text, i)
    ensures name != text
    ensures CharAt(name, i) == NUL && CharAt(text, i) == '=' <==> name + "=" <= text
  {
    if i < |name| && |name| < |text| {
      assert text[..|name| + 1][i] == text[i];
      assert (name + "=")[i] == name[i];
    }
  }

  /** Compares a name with the pair at an offset.  `inside` says that the comparison stops inside
      both strings; if it does not, nothing is known of what the source does next. */
  method CmpName(buf: array<char>, ptr: nat, name: string, ghost p: Pair) returns (same: bool, inside: bool)
    requires NUL !in name && IsPair(p) && Lies(buf[..], ptr, p)
    ensures inside <==> name != Text(p)
    ensures same <==> Matches(name, p)
  {
    var i: nat := 0;
    LiesChar(buf[..], ptr, p, 0);
    while CharAt(name, i) == buf[ptr + i]
      invariant i <= |name| && i <= |Text(p)| && name[..i] == Text(p)[..i]
      invariant ptr + i < buf.Length && buf[ptr + i] == CharAt(Text(p), i)
      decreases |name| - i
    {
      if CharAt(name, i) == NUL {
        assert name == name[..i] && Text(p) == Text(p)[..i];
        return false, false;
      }
      i := i + 1;
      LiesChar(buf[..], ptr, p, i);
    }
    same, inside := CharAt(name, i) == NUL && buf[ptr + i] == '=', true;
    Stopped(name, Text(p), i);
  }

  method StrLen(buf: array<char>, ptr: nat, ghost p: Pair) returns (n: nat)
    requires IsPair(p) && Lies(buf[..], ptr, p)
    ensures n == |Text(p)| && ptr + n < buf.Length && buf[ptr..ptr + n] == Text(p)
  {
    n := 0;
    LiesText(buf[..], ptr, p, 0);
    while buf[ptr + n] != NUL
      invariant n <= |Text(p)| && ptr + n < buf.Length && (buf[ptr + n] == NUL <==> n == |Text(p)|)
      decreases |Text(p)| - n
    {
      n := n + 1;
      LiesText(buf[..], ptr, p, n);
    }
  }

  /** Closes a gap: what follows it moves down. */
  method CloseGap(buf: array<char>, pair: nat, len: nat, end: nat)
    requires pair + len <= end <= buf.Length
    modifies buf
    ensures buf[..end - len] == old(buf[..end])[..pair] + old(buf[..end])[pair + len..]
  {
    ghost var goal := buf[..end][..pair] + buf[..end][pair + len..];
    var dest, src, count := pair, pair + len, end - (pair + len);
    while count > 0
      invariant 0 <= count && src + count == end && dest + len == src && pair <= dest
      invariant forall k :: src <= k < buf.Length ==> buf[k] == old(buf[k])
      invariant forall k :: 0 <= k < dest ==> buf[k] == goal[k]
    {
      buf[dest] := buf[src];
      dest, src, count := dest + 1, src + 1, count - 1;
    }
  }

  /** A larger or smaller buffer that begins like the old one. */
  method Realloc(buf: array<char>, size: nat) returns (fresh': array<char>)
    ensures fresh(fresh') && fresh'.Length == size
    ensures forall k :: 0 <= k < size && k < buf.Length ==> fresh'[k] == buf[k]
  {
    fresh' := new char[size];
    for k := 0 to size
      invariant forall i :: 0 <= i < k && i < buf.Length ==> fresh'[i] == buf[i]
    {
      if k < buf.Length {
        fresh'[k] := buf[k];
      }
    }
  }

  /** Writes a string into the end of a buffer. */
  method Put(buf: array<char>, at: nat, s: string)
    requires at + |s| == buf.Length
    modifies buf
    ensures buf[..] == old(buf[..at]) + s
  {
    for k := 0 to |s|
      invariant forall i :: 0 <= i < at ==> buf[i] == old(buf[i])
      invariant forall i :: at <= i < at + k ==> buf[i] == s[i - at]
    {
      buf[at + k] := s[k];
    }
  }

  /** What is left when a pair is cut out of the buffer. */
  lemma CutOut(buf: string, pairs: seq<Pair>, k: nat, ptr: nat, len: nat)
    requires k < |pairs| && buf == Packed(pairs)
    requires ptr == |Packed(pairs[..k])| && len == |Entry(pairs[k])|
    ensures ptr + len <= |buf| && buf[..ptr] + buf[ptr + len..] == Packed(Removed(pairs, k))
  {
    var a, p, b := pairs[..k], pairs[k], pairs[k + 1..];
    assert pairs == a + [p] + b;
    PackedSplit(a, p, b);
    PackedAppend(a, b);
    assert buf[..ptr] == Packed(a) && buf[ptr + len..] == Packed(b);
  }

  /** Where the value of the pair at an offset begins. */
  method ValueAt(buf: array<char>, ptr: nat, ghost p: Pair) returns (at: nat)
    requires IsPair(p) && Lies(buf[..], ptr, p)
    ensures at == ptr + |p.name| + 1 <= ptr + |Text(p)| < buf.Length && buf[at..ptr + |Text(p)|] == p.value
  {
    at := ptr;
    LiesName(buf[..], ptr, p, 0);
    while buf[at] != '='
      invariant ptr <= at <= ptr + |p.name| && at < buf.Length
      invariant buf[at] == if at - ptr < |p.name| then p.name[at - ptr] else '='
      decreases ptr + |p.name| - at
    {
      at := at + 1;
      LiesName(buf[..], ptr, p, at - ptr);
    }
    at := at + 1;
    assert buf[at..ptr + |Text(p)|] == buf[..][ptr..ptr + |Text(p)|][|p.name| + 1..] == Text(p)[|p.name| + 1..];
  }

  // ----- visiting every pair -----

  /** What a visit comes to: the callback sees each pair in turn until it returns nonzero. */
  function Visit<W>(cb: (W, string) -> (W, int), w: W, pairs: seq<Pair>): (W, int)
    decreases |pairs|
  {
    if pairs == [] then (w, 0)
    else
      var (w', ret) := cb(w, Text(pairs[0]));
      if ret != 0 then (w', ret) else Visit(cb, w', pairs[1..])
  }

  function Texts(pairs: seq<Pair>): seq<string> {
    if pairs == [] then [] else [Text(pairs[0])] + Texts(pairs[1..])
  }

  function Note(seen: seq<string>, text: string): (seq<string>, int) {
    (seen + [text], 0)
  }

  /** A callback that never stops the visit sees every pair once, in order. */
  lemma {:induction false} VisitAll(seen: seq<string>, pairs: seq<Pair>)
    ensures Visit(Note, seen, pairs) == (seen + Texts(pairs), 0)
    decreases |pairs|
  {
    if pairs == [] {
      assert seen + [] == seen;
    } else {
      VisitAll(seen + [Text(pairs[0])], pairs[1..]);
      assert seen + [Text(pairs[0])] + Texts(pairs[1..]) == seen + ([Text(pairs[0])] + Texts(pairs[1..]));
    }
  }

  /** A callback that returns nonzero ends the visit: what comes after is not visited. */
  lemma {:induction false} VisitParts<W>(cb: (W, string) -> (W, int), w: W, a: seq<Pair>, b: seq<Pair>)
    ensures var r := Visit(cb, w, a); Visit(cb, w, a + b) == if r.1 != 0 then r else Visit(cb, r.0, b)
    decreases |a|
  {
    if a == [] {
      assert a + b == b;
    } else {
      assert (a + b)[1..] == a[1..] + b;
      VisitParts(cb, cb(w, Text(a[0])).0, a[1..], b);
    }
  }

  class VarBuffer {
    var varp: array?<char>
    var varsz: nat
    // The variables that the buffer holds.
    ghost var pairs: seq<Pair>

    ghost predicate Valid()
      reads this, varp
    {
      && ArePairs(pairs) && varsz == |Packed(pairs)|
      && (varp == null ==> pairs == [])
      && (varp != null ==> varsz <= varp.Length && varp[..varsz] == Packed(pairs))
    }

    constructor ()
      ensures Valid() && pairs == [] && varp == null
    {
      varp, varsz, pairs := null, 0, [];
    }

    /** Finds the offset of the first pair that a name matches.  `inside` says that no comparison
        has run past the end of a pair. */
    method FindVar(name: string) returns (ptr: Option<nat>, inside: bool)
      requires Valid() && NUL !in name
      ensures inside <==> !Search(pairs, name).Past?
      ensures match Search(pairs, name)
              case Found(k) => k < |pairs| && ptr == Some(|Packed(pairs[..k])|) && ptr.value < varsz
              case _ => ptr == None
    {
      ghost var k: nat := 0;
      var at: nat := 0;
      assert pairs[0..] == pairs;
      while at < varsz
        invariant k <= |pairs| && at == |Packed(pairs[..k])| <= varsz && (at == varsz <==> k == |pairs|)
        invariant Search(pairs, name) == Shifted(k, Search(pairs[k..], name))
        decreases varsz - at
      {
        PairLies(varp[..], pairs, k);
        SearchNext(pairs, name, k);
        var same;
        same, inside := CmpName(varp, at, name, pairs[k]);
        if !inside {
          return None, false;
        }
        if same {
          return Some(at), true;
        }
        var n := StrLen(varp, at, pairs[k]);
        PackedNext(pairs, k);
        at, k := at + n + 1, k + 1;
      }
      return None, true;
    }

    /** Takes the pair at an offset out of the buffer. */
    method RemoveVar(pair: nat, ghost k: nat) returns (ok: bool)
      requires Valid() && varp != null
      requires pair < varsz ==> k < |pairs| && pair == |Packed(pairs[..k])|
      modifies this`varsz, this`pairs, varp
      ensures Valid() && ok == (pair < old(varsz))
      ensures pairs == if ok then Removed(old(pairs), k) else old(pairs)
    {
      hide Packed, Lies;
      ok := pair < varsz;
      if ok {
        PairLies(varp[..], pairs, k);
        var n := StrLen(varp, pair, pairs[k]);
        ghost var rest := Removed(pairs, k);
        CutOut(varp[..varsz], pairs, k, pair, n + 1);
        CloseGap(varp, pair, n + 1, varsz);
        varsz := varsz - (n + 1);
        pairs := rest;
      }
    }

    /** The value of the pair that a name matches. */
    method GetVar(name: string) returns (value: Option<string>, inside: bool)
      requires Valid() && NUL !in name
      ensures inside <==> !Search(pairs, name).Past?
      ensures value == Value(pairs, name) && (value.Some? <==> Search(pairs, name).Found?)
    {
      hide Search, Packed, Lies, Text;
      var pair;
      pair, inside := FindVar(name);
      if pair.None? {
        return None, inside;
      }
      ghost var k := Search(pairs, name).k;
      PairLies(varp[..], pairs, k);
      var at := ValueAt(varp, pair.value, pairs[k]);
      var n := StrLen(varp, pair.value, pairs[k]);
      value := Some(varp[at..pair.value + n]);
    }

    /** Takes the pair that a name matches out of the buffer. */
    method Forget(name: string) returns (found: bool, inside: bool)
      requires Valid() && NUL !in name
      modifies this`varsz, this`pairs, varp
      ensures Valid() && (found <==> Search(old(pairs), name).Found?) && (inside <==> Less(old(pairs), name).Some?)
      ensures pairs == Or(Less(old(pairs), name), old(pairs))
    {
      var pair;
      pair, inside := FindVar(name);
      found := pair.Some?;
      if found {
        var _ := RemoveVar(pair.value, Search(pairs, name).k);
      }
    }

    /** Grows the buffer by one pair. */
    method Append(name: string, value: string)
      requires Valid() && NUL !in name && NUL !in value
      modifies this
      ensures Valid() && pairs == old(pairs) + [Entered(name, value)] && fresh(varp)
    {
      var newsize := varsz + |name| + |value| + 2;
      var newvarp: array<char>;
      if varp != null {
        newvarp := Realloc(varp, newsize);
      } else {
        newvarp := new char[newsize];
      }
      ghost var p := Entered(name, value);
      EnteredText(name, value);
      assert newvarp[..varsz] == Packed(pairs);
      Put(newvarp, varsz, name + "=" + value + [NUL]);
      PackedLast(pairs, p);
      varp, varsz, pairs := newvarp, newsize, pairs + [p];
      assert varp[..varsz] == varp[..];
    }

    /** Sets a variable; `memory` says whether the buffer could be grown. */
    method SetVar(name: string, value: string, memory: bool) returns (ok: bool, inside: bool)
      requires Valid() && NUL !in name && NUL !in value
      modifies this, varp
      ensures Valid() && (varp != null ==> varp == old(varp) || fresh(varp))
      ensures match Act(old(pairs), Set(name, value, memory))
              case None => !inside && pairs == old(pairs)
              case Some(all) => inside && ok == memory && pairs == all
    {
      var found;
      found, inside := Forget(name);
      ok := memory;
      if inside && memory {
        Append(name, value);
      }
    }

    /** Gives back memory after a removal; `memory` says whether the buffer could be reallocated. */
    method Shrink(memory: bool) returns (ok: bool)
      requires Valid() && varp != null
      modifies this`varp
      ensures Valid() && (varp != null ==> varp == old(varp) || fresh(varp))
      ensures ok <==> pairs == [] || memory
    {
      if varsz <= 0 {
        NothingPacked(pairs);
        varp := null;
        return true;
      }
      ok := memory;
      if memory {
        var newvarp := Realloc(varp, varsz);
        assert newvarp[..varsz] == varp[..varsz];
        varp := newvarp;
      }
    }

    /** Unsets a variable; `memory` says whether the buffer could be reallocated. */
    method UnsetVar(name: string, memory: bool) returns (ok: bool, inside: bool)
      requires Valid() && NUL !in name
      modifies this, varp
      ensures Valid() && (varp != null ==> varp == old(varp) || fresh(varp))
      ensures match Act(old(pairs), Unset(name))
              case None => !inside && pairs == old(pairs)
              case Some(all) => inside && ok == Unsets(old(pairs), name, memory) && pairs == all
    {
      ok := true;
      var found;
      found, inside := Forget(name);
      if found {
        ok := Shrink(memory);
      }
    }

    /** Visits the pairs in the buffer. */
    method ForEach<W>(cb: (W, string) -> (W, int), arg: W) returns (w: W, ret: int)
      requires Valid()
      ensures (w, ret) == Visit(cb, arg, pairs)
    {
      w, ret := arg, 0;
      var ptr: nat := 0;
      ghost var k: nat := 0;
      while ptr < varsz
        invariant k <= |pairs| && ptr == |Packed(pairs[..k])| <= varsz && (ptr == varsz <==> k == |pairs|)
        invariant ret == 0 && Visit(cb, arg, pairs) == Visit(cb, w, pairs[k..])
        decreases varsz - ptr
      {
        PairLies(varp[..], pairs, k);
        var n := StrLen(varp, ptr, pairs[k]);
        assert pairs[k..][1..] == pairs[k + 1..];
        var (w', r) := cb(w, varp[ptr..ptr + n]);
        w, ret := w', r;
        if ret != 0 {
          return;
        }
        PackedNext(pairs, k);
        ptr, k := ptr + n + 1, k + 1;
      }
    }
  }
}
