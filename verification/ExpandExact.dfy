/** Exactly when `nsh_argexpand` returns the text that a token means.  With command substitution
    off, a live backquote is passed over, and what stands before it is not concatenated. */
module ExpandExact {
  import opened Wrappers
  import opened Quoting
  import opened Tokeniser

  /** A live backquote is met outside the names of references. */
  predicate Ticks(s: string)
    decreases |s|
  {
    var i := FirstLive(s, 0, Reference);
    i < |s| && (s[i] == '`' || TicksAfter(s[i + 1..]))
  }

  predicate TicksAfter(s: string)
    decreases |s|
  {
    s != [] && s[0] == '{' &&
    var j := FirstLive(s[1..], 0, CloseBrace);
    j < |s[1..]| && Ticks(s[1..][j + 1..])
  }

  /** A reference is met. */
  predicate Refers(s: string)
    decreases |s|
  {
    var i := FirstLive(s, 0, Reference);
    i < |s| && (s[i] == '$' || Refers(s[i + 1..]))
  }

  // ----- what is concatenated -----

  /** The text of a token without the pieces that end in a live backquote. */
  function Trim(s: string, look: string -> string): Option<string>
    decreases |s|, 1
  {
    var i := FirstLive(s, 0, Reference);
    if i == |s| then Some(s)
    else if s[i] == '`' then Trim(s[i + 1..], look)
    else Prefix(s[..i], TrimReference(s[i + 1..], look))
  }

  function TrimReference(s: string, look: string -> string): Option<string>
    decreases |s|, 2
  {
    if s != [] && s[0] == '{' then
      var body := s[1..];
      var j := FirstLive(body, 0, CloseBrace);
      if j == |body| then None else Prefix(look(body[..j]), Trim(body[j + 1..], look))
    else Some(look(s))
  }

  /** Once something is concatenated, the result is what is concatenated, unescaped. */
  lemma {:induction false} Concatenated(s: string, a: string, whole: string, look: string -> string)
    ensures ExpandFrom(s, Some(a), whole, look) == Result(Some(a), Trim(s, look))
    decreases |s|, 0
  {
    hide ExpandReference, FirstLive, Unescape, TrimReference;
    var i := FirstLive(s, 0, Reference);
    if i < |s| {
      if s[i] == '`' {
        Concatenated(s[i + 1..], a, whole, look);
      } else {
        AfterDollar(s[i + 1..], a + s[..i], whole, look);
        ResultPrefix(Some(a), s[..i], TrimReference(s[i + 1..], look));
      }
    }
  }

  lemma {:induction false} AfterDollar(s: string, a: string, whole: string, look: string -> string)
    ensures ExpandReference(s, a, whole, look) == Result(Some(a), TrimReference(s, look))
    decreases |s|, 1
  {
    if s != [] && s[0] == '{' {
      var body := s[1..];
      var j := FirstLive(body, 0, CloseBrace);
      if j < |body| {
        Concatenated(body[j + 1..], a + look(body[..j]), whole, look);
        ResultPrefix(Some(a), look(body[..j]), Trim(body[j + 1..], look));
      }
    }
  }

  /** With nothing concatenated yet: without a reference the token itself is returned. */
  lemma {:induction false} NotConcatenated(s: string, whole: string, look: string -> string)
    ensures ExpandFrom(s, None, whole, look) == if Refers(s) then Result(None, Trim(s, look)) else Unescape(whole)
    decreases |s|
  {
    var i := FirstLive(s, 0, Reference);
    if i < |s| {
      if s[i] == '`' {
        NotConcatenated(s[i + 1..], whole, look);
      } else {
        AfterDollar(s[i + 1..], Before(None) + s[..i], whole, look);
        ResultPrefix(None, s[..i], TrimReference(s[i + 1..], look));
      }
    }
  }

  // ----- unescaping piece by piece -----

  /** An escape is pending after these characters, if one was before them or not. */
  predicate Pending(e: bool, s: string)
    decreases |s|
  {
    if s == [] then e else Pending(!e && s[0] == ESC, s[1..])
  }

  lemma FirstUnescaped(e: bool, s: string)
    requires s != []
    ensures UnescapeFrom(e, s) ==
            (if !e && s[0] == ESC then [] else [s[0]]) + UnescapeFrom(!e && s[0] == ESC, s[1..])
  {
  }

  lemma {:induction false} UnescapeParts(e: bool, a: string, b: string)
    ensures UnescapeFrom(e, a + b) == UnescapeFrom(e, a) + UnescapeFrom(Pending(e, a), b)
    decreases |a|
  {
    if a == [] {
      assert a + b == b;
    } else {
      assert (a + b)[1..] == a[1..] + b;
      UnescapeParts(!e && a[0] == ESC, a[1..], b);
      FirstUnescaped(e, a + b);
      FirstUnescaped(e, a);
    }
  }

  /** Dropping the first character, or escaping it, lengthens nothing by more than it adds. */
  lemma {:induction false} DropOne(s: string)
    ensures s != [] ==> |Unescape(s[1..])| <= |Unescape(s)|
    ensures |Unescape(s)| <= |UnescapeFrom(true, s)| <= |Unescape(s)| + 1
    decreases |s|
  {
    if s != [] {
      FirstUnescaped(false, s);
      FirstUnescaped(true, s);
      DropOne(s[1..]);
    }
  }

  /** A piece that ends in a backquote adds at least that, and leaves no escape pending. */
  lemma TickPiece(e: bool, p: string, t: string)
    ensures UnescapeFrom(e, p + "`" + t) == UnescapeFrom(e, p) + "`" + Unescape(t)
  {
    assert p + "`" + t == p + ("`" + t);
    UnescapeParts(e, p, "`" + t);
    FirstUnescaped(Pending(e, p), "`" + t);
    assert ("`" + t)[1..] == t;
  }

  lemma FirstDiffers(t: string, t': string)
    requires |Unescape(t')| <= |Unescape(t)|
    ensures UnescapeFrom(true, t') != "`" + Unescape(t)
  {
    var r, text := UnescapeFrom(true, t'), "`" + Unescape(t);
    if t' != [] {
      FirstUnescaped(true, t');
      assert r[0] == t'[0] && text[0] == '`';
      if t'[0] == '`' {
        FirstUnescaped(false, t');
        assert |r| == |Unescape(t')| < |text|;
      }
    }
  }

  /** Without such a piece the text comes out different, whatever is dropped behind it. */
  lemma PieceMissing(e: bool, p: string, t: string, t': string)
    requires |Unescape(t')| <= |Unescape(t)| && |UnescapeFrom(e, t')| <= |UnescapeFrom(e, t)|
    ensures |UnescapeFrom(e, t')| <= |UnescapeFrom(e, p + "`" + t)|
    ensures UnescapeFrom(e, t') != UnescapeFrom(e, p + "`" + t)
  {
    TickPiece(e, p, t);
    DropOne(t);
    if e {
      if p == [] {
        FirstDiffers(t, t');
      } else {
        FirstUnescaped(e, p);
      }
    }
  }

  /** The same text before both. */
  lemma SameBefore(e: bool, a: string, t: string, t': string)
    requires |UnescapeFrom(Pending(e, a), t')| <= |UnescapeFrom(Pending(e, a), t)|
    ensures |UnescapeFrom(e, a + t')| <= |UnescapeFrom(e, a + t)|
    ensures UnescapeFrom(e, a + t') == UnescapeFrom(e, a + t) <==>
            UnescapeFrom(Pending(e, a), t') == UnescapeFrom(Pending(e, a), t)
  {
    UnescapeParts(e, a, t);
    UnescapeParts(e, a, t');
    var x, y, y' := UnescapeFrom(e, a), UnescapeFrom(Pending(e, a), t), UnescapeFrom(Pending(e, a), t');
    assert y == (x + y)[|x|..] && y' == (x + y')[|x|..];
  }

  /** How what is concatenated compares with the text meant, with an escape pending or not. */
  ghost predicate Compares(e: bool, text: Option<string>, trimmed: Option<string>, ticks: bool) {
    && text.Some? == trimmed.Some?
    && (text.Some? ==>
        && (!ticks ==> trimmed == text)
        && |UnescapeFrom(e, trimmed.value)| <= |UnescapeFrom(e, text.value)|
        && (ticks ==> UnescapeFrom(e, trimmed.value) != UnescapeFrom(e, text.value)))
  }

  lemma ComparesBefore(e: bool, a: string, text: Option<string>, trimmed: Option<string>, ticks: bool)
    requires Compares(Pending(e, a), text, trimmed, ticks)
    ensures Compares(e, Prefix(a, text), Prefix(a, trimmed), ticks)
  {
    if text.Some? {
      SameBefore(e, a, text.value, trimmed.value);
    }
  }

  /** What is concatenated is the text meant, or comes out different exactly if a backquote is met. */
  lemma {:induction false} Compared(e: bool, s: string, look: string -> string)
    ensures Compares(e, Substitute(s, look), Trim(s, look), Ticks(s))
    decreases |s|, 1
  {
    AtFirst(s, look);
    var i := FirstLive(s, 0, Reference);
    if i < |s| {
      if s[i] == '`' {
        Compared(e, s[i + 1..], look);
        Compared(false, s[i + 1..], look);
        if Substitute(s, look).Some? {
          assert s[..i + 1] == s[..i] + "`";
          PieceMissing(e, s[..i], Substitute(s[i + 1..], look).value, Trim(s[i + 1..], look).value);
        }
      } else {
        ComparedReference(Pending(e, s[..i]), s[i + 1..], look);
        ComparesBefore(e, s[..i], SubstituteReference(s[i + 1..], look), TrimReference(s[i + 1..], look), Ticks(s));
      }
    }
  }

  lemma {:induction false} ComparedReference(e: bool, s: string, look: string -> string)
    ensures Compares(e, SubstituteReference(s, look), TrimReference(s, look), TicksAfter(s))
    decreases |s|, 2
  {
    if s != [] && s[0] == '{' {
      var body := s[1..];
      var j := FirstLive(body, 0, CloseBrace);
      if j < |body| {
        var v := look(body[..j]);
        Compared(Pending(e, v), body[j + 1..], look);
        ComparesBefore(e, v, Substitute(body[j + 1..], look), Trim(body[j + 1..], look), TicksAfter(s));
      }
    }
  }

  lemma {:induction false} NoReference(s: string, look: string -> string)
    requires !Refers(s)
    ensures Substitute(s, look) == Some(s)
    decreases |s|
  {
    hide Substitute, SubstituteReference, FirstLive, Unescape, Open;
    AtFirst(s, look);
    var i := FirstLive(s, 0, Reference);
    if i < |s| {
      NoReference(s[i + 1..], look);
      assert s == s[..i + 1] + s[i + 1..];
    }
  }

  /** For every token whose braces are closed, and all values, the text the token means is returned
      exactly when it does not hold both a reference and a backquote. */
  lemma ExpandExactly(token: string, look: string -> string)
    requires Substitute(token, look).Some?
    ensures Expand(token, look) == Unescape(Substitute(token, look).value) <==> !(Refers(token) && Ticks(token))
  {
    NotConcatenated(token, token, look);
    if Refers(token) {
      Compared(false, token, look);
      assert Before(None) + Trim(token, look).value == Trim(token, look).value;
    } else {
      NoReference(token, look);
    }
  }
}
