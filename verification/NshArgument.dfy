/** The tokeniser as the source runs it: on a NUL-terminated line buffer, which it cuts up and
    unescapes in place. */
module NshArgument {
  import opened Wrappers
  import opened Quoting
  import opened Tokeniser

  method ReadString(buf: array<char>, p: nat, ghost s: string) returns (t: string)
    requires Holds(buf[..], p, s)
    ensures t == s
  {
    t := [];
    var q := p;
    while buf[q] != NUL
      invariant p <= q <= p + |s| && t == s[..q - p]
      invariant q < p + |s| ==> buf[..][p + (q - p)] == s[q - p]
      decreases p + |s| - q
    {
      assert s[..q - p + 1] == s[..q - p] + [s[q - p]];
      t := t + [buf[q]];
      q := q + 1;
    }
    assert s[..|s|] == s;
  }

  /** The next reference character, escaped or not. */
  method StrCspn(buf: array<char>, p: nat, ghost s: string, from: nat) returns (i: nat)
    requires Holds(buf[..], p, s) && from <= |s|
    ensures from <= i <= |s| && (i < |s| ==> Reference.Has(s[i]))
    ensures forall j :: from <= j < i ==> !Reference.Has(s[j])
  {
    i := from;
    while buf[p + i] != NUL && buf[p + i] != '`' && buf[p + i] != '$'
      invariant from <= i <= |s|
      invariant forall j :: from <= j < i ==> !Reference.Has(s[j])
      decreases |s| - i
    {
      assert i < |s| && buf[..][p + i] == s[i];
      i := i + 1;
    }
    assert i < |s| ==> buf[..][p + i] == s[i];
  }

  /** The backward count: is the character at `i` escaped? */
  method CountBack(buf: array<char>, p: nat, ghost s: string, i: nat) returns (quoted: bool)
    requires Holds(buf[..], p, s) && i <= |s|
    ensures quoted == Escaped(s, i)
  {
    var bcount := 0;
    quoted := false;
    while bcount < i && buf[p + i - 1 - bcount] == ESC
      invariant 0 <= bcount <= i && quoted == (bcount % 2 == 1)
      invariant Trailing(s[..i]) == bcount + Trailing(s[..i - bcount])
    {
      ghost var k := i - bcount;
      assert buf[..][p + (k - 1)] == s[k - 1];
      assert s[..k][..k - 1] == s[..k - 1];
      bcount := bcount + 1;
      quoted := !quoted;
    }
    assert bcount < i ==> buf[..][p + (i - 1 - bcount)] == s[i - 1 - bcount];
    Parity(s[..i]);
  }

  /** The search of `nsh_argexpand`: the next reference that is not escaped. */
  method FindReference(buf: array<char>, p: nat, ghost s: string) returns (len: nat)
    requires Holds(buf[..], p, s)
    ensures len == FirstLive(s, 0, Reference)
  {
    len := StrCspn(buf, p, s, 0);
    while len > 0 && buf[p + len] != NUL
      invariant len <= |s| && (len < |s| ==> Reference.Has(s[len]))
      invariant forall j :: 0 <= j < len ==> !LiveIn(s, j, Reference)
      decreases |s| - len
    {
      var quoted := CountBack(buf, p, s, len);
      if !quoted {
        break;
      }
      len := StrCspn(buf, p, s, len + 1);
    }
    assert len < |s| ==> buf[..][p + len] == s[len];
    FirstLiveIs(s, 0, Reference, len);
  }

  lemma HoldsHead(buf: seq<char>, p: nat, s: string, k: nat)
    requires Holds(buf, p, s) && k <= |s|
    ensures Holds(buf[p + k := NUL], p, s[..k])
  {
    forall i | 0 <= i < k ensures s[..k][i] != NUL && buf[p + k := NUL][p + i] == s[..k][i] {
      assert buf[p + i] == s[i];
    }
  }

  /** A string kept out of the way of an update stays. */
  lemma HoldsUpdate(buf: seq<char>, p: nat, s: string, k: nat)
    requires Holds(buf, p, s) && k < |buf| && (k < p || p + |s| < k)
    ensures Holds(buf[k := NUL], p, s)
  {
  }

  /** End a string early, and read what is left of it. */
  method Cut(buf: array<char>, p: nat, ghost s: string, k: nat) returns (head: string)
    requires Holds(buf[..], p, s) && k < |s|
    modifies buf
    ensures head == s[..k] && Holds(buf[..], p, head) && Holds(buf[..], p + k + 1, s[k + 1..])
    ensures buf[..] == old(buf[..])[p + k := NUL]
  {
    HoldsTail(buf[..], p, s, k + 1);
    HoldsHead(buf[..], p, s, k);
    HoldsUpdate(buf[..], p + k + 1, s[k + 1..], p + k);
    buf[p + k] := NUL;
    assert buf[..] == old(buf[..])[p + k := NUL];
    head := ReadString(buf, p, s[..k]);
  }

  /** Unescape a string in a buffer of its own, as `nsh_dequote` does with an allocated one. */
  method DequoteCopy(s: string) returns (t: string)
    requires NUL !in s
    ensures t == Unescape(s)
  {
    var buf := new char[|s| + 1](i => if 0 <= i < |s| then s[i] else NUL);
    Dequote(buf, 0, s);
    t := ReadString(buf, 0, Unescape(s));
  }

  /** The value of a variable is a C string. */
  ghost predicate Clean(look: string -> string) {
    forall name: string :: NUL !in look(name)
  }

  /** A reference read after its dollar sign: its value and the text behind it, or an
      unclosed brace. */
  function ReadReference(s: string, look: string -> string): Option<(string, string)> {
    if s != [] && s[0] == '{' then
      var body := s[1..];
      var j := FirstLive(body, 0, CloseBrace);
      if j == |body| then None else Some((look(body[..j]), body[j + 1..]))
    else Some((look(s), ""))
  }

  lemma ExpandAll(argument: string, whole: string, look: string -> string)
    ensures ExpandFrom("", Some(argument), whole, look) == Unescape(argument)
  {
    assert argument + "" == argument;
  }

  /** One live dollar sign of the expansion. */
  lemma ExpandSplit(t: string, joined: Option<string>, whole: string, look: string -> string, len: nat)
    requires len < |t| && len == FirstLive(t, 0, Reference) && t[len] == '$'
    ensures match ReadReference(t[len + 1..], look)
            case None => ExpandFrom(t, joined, whole, look) == ""
            case Some((value, rest)) =>
              ExpandFrom(t, joined, whole, look) ==
              ExpandFrom(rest, Some(Before(joined) + t[..len] + value), whole, look)
  {
    hide Unescape, FirstLive, LiveIn;
    var s := t[len + 1..];
    var argument := Before(joined) + t[..len];
    assert ExpandFrom(t, joined, whole, look) == ExpandReference(s, argument, whole, look);
    ExpandAll(argument + look(s), whole, look);
  }

  lemma ExpandPlain(t: string, joined: Option<string>, whole: string, look: string -> string, len: nat)
    requires len == FirstLive(t, 0, Reference)
    ensures len == |t| ==>
              ExpandFrom(t, joined, whole, look) == Unescape(match joined case None => whole case Some(a) => a + t)
    ensures len < |t| && t[len] == '`' ==>
              ExpandFrom(t, joined, whole, look) == ExpandFrom(t[len + 1..], joined, whole, look)
    ensures len < |t| && t[len] != '`' ==> t[len] == '$'
  {
  }

  lemma ReadClean(s: string, look: string -> string)
    requires Clean(look)
    ensures match ReadReference(s, look) case None => true case Some((value, rest)) => NUL !in value && |rest| <= |s|
  {
  }

  lemma LiveClose(s: string)
    ensures forall i :: 0 <= i < |s| ==> LiveIn(s, i, CloseBrace) == LiveAt(s, i, '}')
  {
  }

  method TakeBraced(buf: array<char>, p: nat, ghost s: string, look: string -> string)
    returns (r: Option<(string, nat)>)
    requires s != [] && s[0] == '{' && p >= 1 && Holds(buf[..], p - 1, s)
    modifies buf
    ensures forall k :: 0 <= k < p - 1 || p - 1 + |s| <= k < buf.Length ==> buf[k] == old(buf[k])
    ensures match ReadReference(s, look)
            case None => r == None
            case Some((value, rest)) =>
              r == Some((value, p - 1 + |s| - |rest|)) && Holds(buf[..], p - 1 + |s| - |rest|, rest)
  {
    ghost var body := s[1..];
    HoldsTail(buf[..], p - 1, s, 1);
    LiveClose(body);
    var close := StrChr(buf, p, body, '}');
    match close
    case None =>
      FirstLiveIs(body, 0, CloseBrace, |body|);
      r := None;
    case Some(q) =>
      FirstLiveIs(body, 0, CloseBrace, q - p);
      var name := Cut(buf, p, body, q - p);
      r := Some((look(name), q + 1));
  }

  /** Read a reference and cut it off the line. */
  method TakeReference(buf: array<char>, p: nat, ghost s: string, look: string -> string)
    returns (r: Option<(string, nat)>)
    requires Holds(buf[..], p, s)
    modifies buf
    ensures forall k :: 0 <= k < p || p + |s| <= k < buf.Length ==> buf[k] == old(buf[k])
    ensures match ReadReference(s, look)
            case None => r == None
            case Some((value, rest)) => r == Some((value, p + |s| - |rest|)) && Holds(buf[..], p + |s| - |rest|, rest)
  {
    assert s != [] ==> buf[..][p + 0] == s[0];
    if buf[p] == '{' {
      r := TakeBraced(buf, p + 1, s, look);
    } else {
      HoldsTail(buf[..], p, s, |s|);
      var name := ReadString(buf, p, s);
      r := Some((look(name), p + |name|));
    }
  }

  /** Where the expansion of a token stands: `t` is left, and `joined` has been concatenated. */
  ghost predicate Expanding(buf: seq<char>, start: nat, s: string, working: nat, t: string, joined: Option<string>) {
    && start <= working && working + |t| == start + |s| < |buf| && Holds(buf, working, t)
    && (match joined case None => Holds(buf, start, s) case Some(a) => NUL !in a)
  }

  /** A live dollar sign: the text before it and the value of the reference join the argument. */
  method JoinReference(buf: array<char>, ghost start: nat, ghost s: string, working: nat, ghost t: string, len: nat,
                       joined: Option<string>, look: string -> string)
    returns (next: nat, more: Option<string>)
    requires Holds(buf[..], working, t) && start <= working && working + |t| == start + |s| && Clean(look)
    requires len < |t| && (joined.Some? ==> NUL !in joined.value)
    modifies buf
    ensures forall k :: 0 <= k < start || start + |s| <= k < buf.Length ==> buf[k] == old(buf[k])
    ensures match ReadReference(t[len + 1..], look)
            case None => more == None
            case Some((value, rest)) =>
              && more == Some(Before(joined) + t[..len] + value) && NUL !in more.value
              && next + |rest| == start + |s| && Holds(buf[..], next, rest)
  {
    hide ReadReference, Holds;
    ghost var rest := t[len + 1..];
    HoldsClean(buf[..], working, t);
    ReadClean(rest, look);
    var text := Cut(buf, working, t, len);
    var a := Before(joined) + text;
    var r := TakeReference(buf, working + len + 1, rest, look);
    if r == None {
      return 0, None;
    }
    return r.value.1, Some(a + r.value.0);
  }

  /** What a live dollar sign leaves to be expanded, or a brace left open. */
  method ExpandDollar(buf: array<char>, ghost start: nat, ghost s: string, working: nat, ghost t: string, len: nat,
                      joined: Option<string>, look: string -> string, ghost goal: string)
    returns (next: nat, more: Option<string>, ghost rest: string)
    requires Holds(buf[..], working, t) && start <= working && working + |t| == start + |s| && Clean(look)
    requires len < |t| && len == FirstLive(t, 0, Reference) && t[len] == '$' && (joined.Some? ==> NUL !in joined.value)
    requires ExpandFrom(t, joined, s, look) == goal
    modifies buf
    ensures forall k :: 0 <= k < start || start + |s| <= k < buf.Length ==> buf[k] == old(buf[k])
    ensures more == None ==> goal == ""
    ensures more.Some? ==>
              && NUL !in more.value && ExpandFrom(rest, more, s, look) == goal && |rest| < |t|
              && start <= next && next + |rest| == start + |s| && Holds(buf[..], next, rest)
  {
    hide ExpandFrom, ReadReference, Holds, FirstLive;
    ExpandSplit(t, joined, s, look, len);
    ReadClean(t[len + 1..], look);
    next, more := JoinReference(buf, start, s, working, t, len, joined, look);
    rest := if more == None then "" else ReadReference(t[len + 1..], look).value.1;
  }

  /** The end of the token: the concatenation is finished, or the token itself is returned. */
  method Finish(buf: array<char>, start: nat, ghost s: string, working: nat, ghost t: string, joined: Option<string>)
    returns (argument: string)
    requires Holds(buf[..], working, t) && (joined == None ==> Holds(buf[..], start, s)) && start + |s| < buf.Length
    requires joined.Some? ==> NUL !in joined.value
    modifies buf
    ensures argument == Unescape(match joined case None => s case Some(a) => a + t)
    ensures forall k :: 0 <= k < start || start + |s| <= k < buf.Length ==> buf[k] == old(buf[k])
  {
    match joined
    case None =>
      Dequote(buf, start, s);
      argument := ReadString(buf, start, Unescape(s));
    case Some(a) =>
      var tail := ReadString(buf, working, t);
      argument := DequoteCopy(a + tail);
  }

  /** One turn of its loop: up to the end, past a backquote, or past a reference. */
  method ExpandTurn(buf: array<char>, start: nat, ghost s: string, working: nat, ghost t: string,
                    joined: Option<string>, look: string -> string, ghost goal: string)
    returns (result: Option<string>, next: nat, more: Option<string>, ghost rest: string)
    requires Expanding(buf[..], start, s, working, t, joined) && ExpandFrom(t, joined, s, look) == goal && Clean(look)
    modifies buf
    ensures forall k :: 0 <= k < start || start + |s| <= k < buf.Length ==> buf[k] == old(buf[k])
    ensures result.Some? ==> result.value == goal
    ensures result == None ==>
              |rest| < |t| && Expanding(buf[..], start, s, next, rest, more) && ExpandFrom(rest, more, s, look) == goal
  {
    hide Holds, ExpandFrom, Unescape, FirstLive;
    var len := FindReference(buf, working, t);
    HoldsAt(buf[..], working, t, len);
    ExpandPlain(t, joined, s, look, len);
    result, next, more, rest := None, working + len + 1, joined, "";
    if buf[working + len] == NUL {
      var argument := Finish(buf, start, s, working, t, joined);
      result := Some(argument);
    } else if buf[working + len] == '`' {
      HoldsTail(buf[..], working, t, len + 1);
      rest := t[len + 1..];
    } else {
      next, more, rest := ExpandDollar(buf, start, s, working, t, len, joined, look, goal);
      if more == None {
        result := Some("");
      }
    }
  }

  /** `nsh_argexpand`. */
  method ArgExpand(buf: array<char>, start: nat, ghost s: string, look: string -> string) returns (argument: string)
    requires Holds(buf[..], start, s) && Clean(look)
    modifies buf
    ensures argument == Expand(s, look)
    ensures forall k :: 0 <= k < start || start + |s| <= k < buf.Length ==> buf[k] == old(buf[k])
  {
    var working, joined: Option<string>, result: Option<string> := start, None, None;
    ghost var t, goal := s, Expand(s, look);
    while result == None
      invariant result == None ==>
                  Expanding(buf[..], start, s, working, t, joined) && ExpandFrom(t, joined, s, look) == goal
      invariant result.Some? ==> result.value == goal
      invariant forall k :: 0 <= k < start || start + |s| <= k < buf.Length ==> buf[k] == old(buf[k])
      decreases result == None, |t|
    {
      result, working, joined, t := ExpandTurn(buf, start, s, working, t, joined, look, goal);
    }
    argument := result.value;
  }

  lemma HoldsAgree(a: seq<char>, b: seq<char>, p: nat, s: string)
    requires |a| == |b| && Holds(a, p, s) && forall k :: p <= k < |a| ==> a[k] == b[k]
    ensures Holds(b, p, s)
  {
  }

  predicate Ends(c: char, quote: bool) {
    if quote then c == '"' else c == ' ' || c == '\t' || c == '\n'
  }

  /** The search of `nsh_argument` for the end of a token: a flag is carried along with the
      previous character. */
  method TokenEnd(buf: array<char>, p: nat, ghost s: string, quote: bool) returns (end: nat)
    requires Holds(buf[..], p, s)
    ensures end == FirstLive(s, 0, if quote then DoubleQuote else Separator)
  {
    ghost var chars := if quote then DoubleQuote else Separator;
    var quoted := false;
    end := 0;
    while buf[p + end] != NUL
      invariant 0 <= end <= |s|
      invariant if end == 0 then !quoted else quoted == Escaped(s, end - 1)
      invariant forall j :: 0 <= j < end ==> !LiveIn(s, j, chars)
      decreases |s| - end
    {
      assert end < |s| && buf[..][p + end] == s[end];
      if end > 0 {
        assert buf[..][p + (end - 1)] == s[end - 1];
        OpenStep(s, end - 1);
      }
      if end > 0 && buf[p + end - 1] == ESC && !quoted {
        quoted := true;
      } else {
        quoted := false;
        if buf[p + end] != ESC && Ends(buf[p + end], quote) {
          break;
        }
      }
      end := end + 1;
    }
    assert end < |s| ==> buf[..][p + end] == s[end];
    FirstLiveIs(s, 0, chars, end);
  }

  method SkipBlanks(buf: array<char>, p: nat, ghost s: string) returns (q: nat, ghost t: string)
    requires Holds(buf[..], p, s)
    ensures p <= q && q + |t| == p + |s| && Holds(buf[..], q, t)
    ensures t == SkipSeparators(s) && (buf[q] == NUL <==> t == [])
  {
    q, t := p, s;
    while buf[q] != NUL && Ends(buf[q], false)
      invariant p <= q && q + |t| == p + |s| && Holds(buf[..], q, t) && SkipSeparators(t) == SkipSeparators(s)
      decreases |t|
    {
      assert t != [] && buf[..][q + 0] == t[0];
      HoldsTail(buf[..], q, t, 1);
      q, t := q + 1, t[1..];
    }
    assert t != [] ==> buf[..][q + 0] == t[0];
  }

  /** A normal argument: up to its end, which becomes a NUL. */
  method Token(buf: array<char>, p: nat, ghost body: string, quote: bool, look: string -> string)
    returns (argument: string, next: nat, ghost rest: string)
    requires Holds(buf[..], p, body) && Clean(look)
    modifies buf
    ensures var end := FirstLive(body, 0, if quote then DoubleQuote else Separator);
            argument == Expand(body[..end], look) && rest == if end < |body| then body[end + 1..] else ""
    ensures next + |rest| == p + |body| && Holds(buf[..], next, rest)
  {
    var end := TokenEnd(buf, p, body, quote);
    assert end < |body| ==> buf[..][p + end] == body[end];
    if buf[p + end] != NUL {
      var _ := Cut(buf, p, body, end);
      next, rest := p + end + 1, body[end + 1..];
      ghost var cut := buf[..];
      argument := ArgExpand(buf, p, body[..end], look);
      HoldsAgree(cut, buf[..], next, rest);
    } else {
      assert body[..end] == body;
      next, rest := p + end, "";
      argument := ArgExpand(buf, p, body, look);
    }
  }

  /** The same, where a token begins. */
  method AtToken(buf: array<char>, begin: nat, ghost t: string, look: string -> string)
    returns (argument: Option<string>, next: nat, ghost rest: string)
    requires t != [] && Holds(buf[..], begin, t) && Clean(look)
    modifies buf
    ensures (argument, rest) == NextToken(t, look)
    ensures next + |rest| == begin + |t| && Holds(buf[..], next, rest)
  {
    hide Holds, Expand, FirstLive;
    HoldsAt(buf[..], begin, t, 0);
    HoldsAt(buf[..], begin, t, 1);
    HoldsTail(buf[..], begin, t, 1);
    if buf[begin] == '>' {
      if buf[begin + 1] == '>' {
        HoldsTail(buf[..], begin, t, 2);
        return Some(">>"), begin + 2, t[2..];
      }
      return Some(">"), begin + 1, t[1..];
    } else if buf[begin] == '#' {
      return None, begin, t;
    } else {
      var quote := buf[begin] == '"';
      var a;
      a, next, rest := Token(buf, if quote then begin + 1 else begin, if quote then t[1..] else t, quote, look);
      argument := Some(a);
    }
  }

  /** `nsh_argument`: cut the next argument off the line and expand it. */
  method Argument(buf: array<char>, save: nat, ghost s: string, look: string -> string)
    returns (argument: Option<string>, next: nat, ghost rest: string)
    requires Holds(buf[..], save, s) && Clean(look)
    modifies buf
    ensures (argument, rest) == NextArgument(s, look)
    ensures next + |rest| == save + |s| && Holds(buf[..], next, rest)
  {
    var begin, t := SkipBlanks(buf, save, s);
    if buf[begin] == NUL {
      return None, save, s;
    }
    argument, next, rest := AtToken(buf, begin, t, look);
  }

  /** The arguments read so far, and those still on the line. */
  ghost predicate IsRest(argv: seq<string>, t: string, all: seq<string>, look: string -> string) {
    |argv| <= |all| && argv == all[..|argv|] && Arguments(t, look) == all[|argv|..]
  }

  lemma ArgumentsCase(s: string, look: string -> string, argument: Option<string>, rest: string)
    requires NextArgument(s, look) == (argument, rest)
    ensures argument == None ==> Arguments(s, look) == []
    ensures argument.Some? ==> Arguments(s, look) == [argument.value] + Arguments(rest, look)
  {
    if argument.Some? {
      ArgumentsNext(s, look, argument.value, rest);
    }
  }

  lemma RestNext(argv: seq<string>, t: string, all: seq<string>, look: string -> string, argument: Option<string>,
                 rest: string)
    requires IsRest(argv, t, all, look) && NextArgument(t, look) == (argument, rest)
    ensures argument == None ==> argv == all
    ensures argument.Some? ==> IsRest(argv + [argument.value], rest, all, look)
  {
    ArgumentsCase(t, look, argument, rest);
    if argument.Some? {
      var tail := all[|argv|..];
      assert tail[1..] == Arguments(rest, look) && tail[1..] == all[|argv| + 1..];
      assert all[..|argv| + 1] == argv + [tail[0]];
    } else {
      assert all[..|argv|] == all;
    }
  }

  /** The argument loop of `nsh_parse_command`: at most `limit` arguments. */
  method ParseArguments(buf: array<char>, start: nat, ghost s: string, limit: nat, look: string -> string)
    returns (argv: seq<string>)
    requires Holds(buf[..], start, s) && Clean(look)
    modifies buf
    ensures var all := Arguments(s, look); argv == if |all| <= limit then all else all[..limit]
  {
    argv := [];
    var save := start;
    ghost var t, all := s, Arguments(s, look);
    while |argv| < limit
      invariant |argv| <= limit && Holds(buf[..], save, t)
      invariant IsRest(argv, t, all, look)
    {
      var argument, next;
      ghost var rest;
      argument, next, rest := Argument(buf, save, t, look);
      RestNext(argv, t, all, look, argument, rest);
      if argument == None {
        return;
      }
      argv, save, t := argv + [argument.value], next, rest;
    }
  }
}
