/** Cutting an NSH command line into arguments and expanding `$` references in them.
    Configuration: quoting, concatenation and variables on, command substitution off. */
module Tokeniser {
  import opened Wrappers
  import opened Quoting

  /** The character sets the code searches for. */
  datatype Class = Separator | Reference | Dollar | Backquote | CloseBrace | DoubleQuote | Special {
    predicate Has(c: char) {
      match this
      case Separator => c == ' ' || c == '\t' || c == '\n'
      case Reference => c == '$' || c == '`'
      case Dollar => c == '$'
      case Backquote => c == '`'
      case CloseBrace => c == '}'
      case DoubleQuote => c == '"'
      case Special => c == ' ' || c == '\t' || c == '\n' || c == '"' || c == '>' || c == '#' || c == '$' || c == '`'
    }
  }

  /** One of these characters stands at `i` and is not escaped. */
  predicate LiveIn(s: string, i: nat, chars: Class)
    requires i < |s|
  {
    chars.Has(s[i]) && !Escaped(s, i)
  }

  /** The first such position at or after `i`, or the end. */
  function FirstLive(s: string, i: nat, chars: Class): (r: nat)
    requires i <= |s|
    ensures i <= r <= |s|
    ensures r < |s| ==> LiveIn(s, r, chars)
    ensures forall j :: i <= j < r ==> !LiveIn(s, j, chars)
    decreases |s| - i
  {
    if i == |s| || LiveIn(s, i, chars) then i else FirstLive(s, i + 1, chars)
  }

  // ----- one argument: nsh_argexpand -----

  function Before(argument: Option<string>): string {
    match argument case None => "" case Some(a) => a
  }

  /** What `nsh_argexpand` returns for a token, from a working position on.  `argument` is the
      text concatenated so far, if any; `whole` is the token, which is returned when nothing
      was concatenated.  An unclosed brace gives the empty string. */
  function ExpandFrom(s: string, argument: Option<string>, whole: string, look: string -> string): string
    decreases |s|, 1
  {
    var i := FirstLive(s, 0, Reference);
    if i == |s| then Unescape(match argument case None => whole case Some(a) => a + s)
    else if s[i] == '`' then ExpandFrom(s[i + 1..], argument, whole, look)
    else ExpandReference(s[i + 1..], Before(argument) + s[..i], whole, look)
  }

  /** The same, just after a live dollar sign. */
  function ExpandReference(s: string, argument: string, whole: string, look: string -> string): string
    decreases |s|, 2
  {
    if s != [] && s[0] == '{' then
      var body := s[1..];
      var j := FirstLive(body, 0, CloseBrace);
      if j == |body| then "" else ExpandFrom(body[j + 1..], Some(argument + look(body[..j])), whole, look)
    else Unescape(argument + look(s))
  }

  function Expand(token: string, look: string -> string): string {
    ExpandFrom(token, None, token, look)
  }

  function Prefix(a: string, rest: Option<string>): Option<string> {
    match rest case None => None case Some(b) => Some(a + b)
  }

  /** The text that is meant: read character by character, an escaped pair and any other
      character stand for themselves, `${name}` for the value of the name, and `$name` for
      the value of all the rest.  None if a brace is not closed. */
  function Substitute(s: string, look: string -> string): Option<string>
    decreases |s|, 1
  {
    if s == [] then Some([])
    else if s[0] == '$' then SubstituteReference(s[1..], look)
    else Prefix(s[..Unit(s)], Substitute(s[Unit(s)..], look))
  }

  function SubstituteReference(s: string, look: string -> string): Option<string>
    decreases |s|, 2
  {
    if s != [] && s[0] == '{' then
      var body := s[1..];
      var j := FirstLive(body, 0, CloseBrace);
      if j == |body| then None else Prefix(look(body[..j]), Substitute(body[j + 1..], look))
    else Some(look(s))
  }

  predicate NoLive(s: string, chars: Class) {
    forall i :: 0 <= i < |s| ==> !LiveIn(s, i, chars)
  }

  lemma LiveAfter(a: string, b: string, chars: Class)
    requires !Open(a)
    ensures forall i :: 0 <= i < |b| ==> LiveIn(a + b, |a| + i, chars) == LiveIn(b, i, chars)
  {
    forall i | 0 <= i < |b| ensures LiveIn(a + b, |a| + i, chars) == LiveIn(b, i, chars) {
      EscapedAfter(a, b, i);
    }
  }

  lemma LiveBefore(a: string, b: string, chars: Class)
    ensures forall i :: 0 <= i < |a| ==> LiveIn(a + b, i, chars) == LiveIn(a, i, chars)
  {
    forall i | 0 <= i < |a| ensures LiveIn(a + b, i, chars) == LiveIn(a, i, chars) {
      EscapedBefore(a, b, i);
    }
  }

  lemma NoLiveParts(a: string, b: string, chars: Class)
    requires NoLive(a + b, chars)
    ensures NoLive(a, chars) && (!Open(a) ==> NoLive(b, chars))
  {
    LiveBefore(a, b, chars);
    if !Open(a) {
      LiveAfter(a, b, chars);
    }
  }

  lemma SubstituteUnit(a: string, b: string, look: string -> string)
    requires a != [] && a[0] != '$' && (a[0] == ESC ==> |a| > 1)
    ensures Substitute(a + b, look) == Prefix(a[..Unit(a)], Substitute(a[Unit(a)..] + b, look))
  {
    var k := Unit(a);
    assert (a + b)[k..] == a[k..] + b && (a + b)[..k] == a[..k] && Unit(a + b) == k;
  }

  lemma PrefixPrefix(a: string, b: string, rest: Option<string>)
    ensures Prefix(a, Prefix(b, rest)) == Prefix(a + b, rest)
  {
    if rest.Some? {
      assert a + (b + rest.value) == a + b + rest.value;
    }
  }

  /** Text without references stands for itself, in front of anything. */
  lemma {:induction false} SubstitutePrefix(a: string, b: string, look: string -> string)
    requires !Open(a) && NoLive(a, Dollar)
    ensures Substitute(a + b, look) == Prefix(a, Substitute(b, look))
    decreases |a|
  {
    if a == [] {
      assert a + b == b;
      match Substitute(b, look)
      case None =>
      case Some(t) => assert a + t == t;
    } else {
      var k := Unit(a);
      UnitClosed(a);
      assert a == a[..k] + a[k..];
      OpenAppend(a[..k], a[k..]);
      NoLiveParts(a[..k], a[k..], Dollar);
      SubstitutePrefix(a[k..], b, look);
      assert !LiveIn(a, 0, Dollar);
      SubstituteUnit(a, b, look);
      PrefixPrefix(a[..k], a[k..], Substitute(b, look));
    }
  }

  lemma UnitOpen(s: string)
    requires s != [] && Unit(s) < |s|
    ensures !Open(s[..Unit(s)])
  {
    assert s[..1][..0] == [] && Open(s[..1]) == (s[0] == ESC);
    if Unit(s) == 2 {
      assert s[..2][..1] == s[..1];
    }
  }

  lemma {:induction false} SubstituteLiteral(s: string, look: string -> string)
    requires NoLive(s, Dollar)
    ensures Substitute(s, look) == Some(s)
    decreases |s|
  {
    if s != [] {
      var k := Unit(s);
      assert !LiveIn(s, 0, Dollar);
      assert s == s[..k] + s[k..];
      if k < |s| {
        UnitOpen(s);
        NoLiveParts(s[..k], s[k..], Dollar);
      }
      SubstituteLiteral(s[k..], look);
    }
  }

  lemma NoLiveSub(s: string)
    ensures NoLive(s, Reference) <==> NoLive(s, Dollar) && NoLive(s, Backquote)
  {
    forall i | 0 <= i < |s| ensures LiveIn(s, i, Reference) <==> LiveIn(s, i, Dollar) || LiveIn(s, i, Backquote) {}
  }

  lemma BeforeFirst(s: string, chars: Class)
    ensures var i := FirstLive(s, 0, chars); NoLive(s[..i], chars) && (i < |s| ==> !Open(s[..i]))
  {
    var i := FirstLive(s, 0, chars);
    assert s == s[..i] + s[i..];
    LiveBefore(s[..i], s[i..], chars);
  }

  lemma ClosedAfter(a: string, c: char)
    requires !Open(a) && c != ESC
    ensures !Open(a + [c]) && |Unescape(a + [c])| >= 1
  {
    assert (a + [c])[..|a|] == a;
    UnescapeAppend(a, [c]);
  }

  lemma SubstituteFirst(s: string, look: string -> string)
    requires s != []
    ensures s[0] == '$' ==> Substitute(s, look) == SubstituteReference(s[1..], look)
    ensures s[0] == '`' ==> Substitute(s, look) == Prefix(s[..1], Substitute(s[1..], look))
  {
  }

  /** Where the first live reference character stands, and what the token means from there. */
  lemma AtFirst(s: string, look: string -> string)
    ensures var i := FirstLive(s, 0, Reference);
            && (i == |s| ==> Substitute(s, look) == Some(s))
            && (i < |s| && s[i] == '`' ==> Substitute(s, look) == Prefix(s[..i + 1], Substitute(s[i + 1..], look)))
            && (i < |s| && s[i] == '$' ==> Substitute(s, look) == Prefix(s[..i], SubstituteReference(s[i + 1..], look)))
            && (i < |s| ==> !Open(s[..i]) && !Open(s[..i + 1]) && |Unescape(s[..i + 1])| >= 1)
  {
    hide FirstLive, Substitute, SubstituteReference, Unescape, Open;
    var i := FirstLive(s, 0, Reference);
    BeforeFirst(s, Reference);
    NoLiveSub(s[..i]);
    if i == |s| {
      assert s[..i] == s;
      SubstituteLiteral(s, look);
    } else {
      SubstitutePrefix(s[..i], s[i..], look);
      assert s[..i] + s[i..] == s && s[i..][1..] == s[i + 1..];
      assert s[..i + 1] == s[..i] + [s[i]];
      ClosedAfter(s[..i], s[i]);
      SubstituteFirst(s[i..], look);
      if s[i] == '`' {
        assert s[i..][..1] == [s[i]];
        PrefixPrefix(s[..i], [s[i]], Substitute(s[i + 1..], look));
      }
    }
  }

  /** What follows a character that is not a backslash. */
  lemma NoLiveAfter(s: string, m: nat, chars: Class)
    requires 0 < m <= |s| && s[m - 1] != ESC && NoLive(s, chars)
    ensures NoLive(s[m..], chars)
  {
    assert s == s[..m] + s[m..];
    NoLiveParts(s[..m], s[m..], chars);
  }

  /** The text a token comes to, behind what has been concatenated before. */
  function Result(argument: Option<string>, text: Option<string>): string {
    match text
    case None => ""
    case Some(t) => Unescape(Before(argument) + t)
  }

  lemma ResultPrefix(argument: Option<string>, a: string, text: Option<string>)
    ensures Result(argument, Prefix(a, text)) == Result(Some(Before(argument) + a), text)
  {
    if text.Some? {
      assert Before(argument) + (a + text.value) == Before(argument) + a + text.value;
    }
  }

  /** `nsh_argexpand` returns the unescaped text that the token means, or nothing at all if a
      brace is left open; provided the token has no live backquote. */
  lemma {:induction false} ExpandMeaning(s: string, argument: Option<string>, whole: string, look: string -> string)
    requires NoLive(s, Backquote) && (argument == None ==> whole == s)
    ensures ExpandFrom(s, argument, whole, look) == Result(argument, Substitute(s, look))
    decreases |s|, 0
  {
    AtFirst(s, look);
    var i := FirstLive(s, 0, Reference);
    assert i < |s| ==> !LiveIn(s, i, Backquote);
    if i == |s| {
      assert argument == None ==> Before(argument) + s == whole;
    } else {
      var a := Before(argument) + s[..i];
      ResultPrefix(argument, s[..i], SubstituteReference(s[i + 1..], look));
      NoLiveAfter(s, i + 1, Backquote);
      ReferenceMeaning(s[i + 1..], a, whole, look);
    }
  }

  lemma {:induction false} ReferenceMeaning(s: string, a: string, whole: string, look: string -> string)
    requires NoLive(s, Backquote)
    ensures ExpandReference(s, a, whole, look) == Result(Some(a), SubstituteReference(s, look))
    decreases |s|, 1
  {
    if s != [] && s[0] == '{' {
      var body := s[1..];
      var j := FirstLive(body, 0, CloseBrace);
      if j < |body| {
        assert s[j + 2..] == body[j + 1..] && s[j + 1] == body[j];
        NoLiveAfter(s, j + 2, Backquote);
        ExpandMeaning(s[j + 2..], Some(a + look(body[..j])), whole, look);
        ResultPrefix(Some(a), look(body[..j]), Substitute(s[j + 2..], look));
      }
    }
  }

  // ----- one line: nsh_argument -----

  predicate IsBlank(gap: string) {
    forall i :: 0 <= i < |gap| ==> gap[i] == ' ' || gap[i] == '\t' || gap[i] == '\n'
  }

  function SkipSeparators(s: string): (t: string)
    ensures |t| <= |s|
  {
    if s != [] && Separator.Has(s[0]) then SkipSeparators(s[1..]) else s
  }

  /** Leading blanks are dropped, all of them, and nothing else. */
  lemma {:induction false} SkipsExactly(s: string)
    ensures var t := SkipSeparators(s);
            && t == s[|s| - |t|..] && IsBlank(s[..|s| - |t|])
            && (t != [] ==> t[0] != ' ' && t[0] != '\t' && t[0] != '\n')
    decreases |s|
  {
    if s != [] && Separator.Has(s[0]) {
      SkipsExactly(s[1..]);
      var n := |s| - |SkipSeparators(s)|;
      assert s[..n] == [s[0]] + s[1..][..n - 1];
    }
  }

  function NextToken(t: string, look: string -> string): (Option<string>, string)
    requires t != []
  {
    if t[0] == '>' then
      if |t| > 1 && t[1] == '>' then (Some(">>"), t[2..]) else (Some(">"), t[1..])
    else if t[0] == '#' then (None, t)
    else
      var body := if t[0] == '"' then t[1..] else t;
      var end := FirstLive(body, 0, if t[0] == '"' then DoubleQuote else Separator);
      (Some(Expand(body[..end], look)), if end < |body| then body[end + 1..] else "")
  }

  /** The argument that comes next (None at the end of the line or at a comment) and the
      position where the next call goes on. */
  function NextArgument(s: string, look: string -> string): (Option<string>, string) {
    var t := SkipSeparators(s);
    if t == [] then (None, s) else NextToken(t, look)
  }

  lemma NextShorter(s: string, look: string -> string)
    ensures NextArgument(s, look).0.Some? ==> |NextArgument(s, look).1| < |s|
  {
  }

  /** All arguments of a line, up to the first NULL. */
  function Arguments(s: string, look: string -> string): seq<string>
    decreases |s|, 1
  {
    NextShorter(s, look);
    var (argument, rest) := NextArgument(s, look);
    match argument case None => [] case Some(a) => Onward(s, a, rest, look)
  }

  function Onward(s: string, argument: string, rest: string, look: string -> string): seq<string>
    requires |rest| < |s|
    decreases |s|, 0
  {
    [argument] + Arguments(rest, look)
  }

  lemma ArgumentsNext(s: string, look: string -> string, argument: string, rest: string)
    requires NextArgument(s, look) == (Some(argument), rest)
    ensures Arguments(s, look) == [argument] + Arguments(rest, look)
  {
    NextShorter(s, look);
    assert Arguments(s, look) == Onward(s, argument, rest, look);
  }

  /** A token that starts with an ordinary character runs to the next live separator. */
  lemma NextPlain(t: string, end: nat, look: string -> string)
    requires t != [] && !Special.Has(t[0]) && end == FirstLive(t, 0, Separator)
    ensures NextArgument(t, look) == (Some(Expand(t[..end], look)), if end < |t| then t[end + 1..] else "")
  {
  }

  /** A token that starts with a double quote runs to the next live one. */
  lemma NextQuoted(t: string, end: nat, look: string -> string)
    requires t != [] && t[0] == '"' && end == FirstLive(t[1..], 0, DoubleQuote)
    ensures NextArgument(t, look) ==
            (Some(Expand(t[1..][..end], look)), if end < |t| - 1 then t[1..][end + 1..] else "")
  {
  }

  // ----- writing words so that they are read back -----

  /** Every character that means something to the tokeniser gets a backslash. */
  function Escape(word: string): string {
    if word == [] then []
    else
      var c := word[|word| - 1];
      Escape(word[..|word| - 1]) + if Special.Has(c) || c == ESC then [ESC, c] else [c]
  }

  lemma OpenSnoc(s: string, c: char)
    ensures Open(s + [c]) == (c == ESC && !Open(s))
  {
    assert (s + [c])[..|s|] == s;
  }

  lemma NoLiveSnoc(s: string, c: char, chars: Class)
    requires NoLive(s, chars) && (!chars.Has(c) || Open(s))
    ensures NoLive(s + [c], chars)
  {
    LiveBefore(s, [c], chars);
    assert (s + [c])[..|s|] == s;
  }

  lemma EscapedPair(e: string, c: char)
    requires !Open(e) && NoLive(e, Special)
    ensures !Open(e + [ESC, c]) && NoLive(e + [ESC, c], Special) && Unescape(e + [ESC, c]) == Unescape(e) + [c]
  {
    assert e + [ESC] + [c] == e + [ESC, c];
    OpenSnoc(e, ESC);
    OpenSnoc(e + [ESC], c);
    NoLiveSnoc(e, ESC, Special);
    NoLiveSnoc(e + [ESC], c, Special);
    UnescapeAppend(e, [ESC, c]);
    assert Unescape([ESC, c]) == [c] + Unescape([]);
  }

  /** Escaped text leaves no escape pending, shows no special character, and reads back. */
  lemma {:induction false} EscapeReads(word: string)
    ensures !Open(Escape(word)) && NoLive(Escape(word), Special) && Unescape(Escape(word)) == word
    ensures word != [] ==> Escape(word) != [] && !Special.Has(Escape(word)[0])
    decreases |word|
  {
    if word != [] {
      var n := |word| - 1;
      var c := word[n];
      var e := Escape(word[..n]);
      EscapeReads(word[..n]);
      assert word == word[..n] + [c];
      if Special.Has(c) || c == ESC {
        EscapedPair(e, c);
      } else {
        OpenSnoc(e, c);
        NoLiveSnoc(e, c, Special);
        UnescapeAppend(e, [c]);
        assert Unescape([c]) == [c] + Unescape([]);
      }
      assert !LiveIn(Escape(word), 0, Special);
    }
  }

  lemma {:induction false} FirstLiveIs(s: string, i: nat, chars: Class, r: nat)
    requires i <= r <= |s| && (forall j :: i <= j < r ==> !LiveIn(s, j, chars)) && (r < |s| ==> LiveIn(s, r, chars))
    ensures FirstLive(s, i, chars) == r
    decreases r - i
  {
    if i < r {
      FirstLiveIs(s, i + 1, chars, r);
    }
  }

  /** The end of an escaped word is found where it is. */
  lemma WordEnds(word: string, rest: string, chars: Class)
    requires rest == [] || chars.Has(rest[0])
    requires chars != CloseBrace
    ensures FirstLive(Escape(word) + rest, 0, chars) == |Escape(word)|
  {
    var e := Escape(word);
    EscapeReads(word);
    LiveBefore(e, rest, chars);
    forall j | 0 <= j < |e| ensures !LiveIn(e + rest, j, chars) {
      assert !LiveIn(e, j, Special) && LiveIn(e + rest, j, chars) == LiveIn(e, j, chars);
    }
    assert (e + rest)[..|e|] == e;
    FirstLiveIs(e + rest, 0, chars, |e|);
  }

  /** What may stand on a line: a word, as it is, with escapes, or with escapes between double quotes
      (then it may be empty), or one of the two redirections. */
  datatype Written = Plain(word: string) | Bare(word: string) | Quoted(word: string) | Redirect | Append

  /** A word that needs no escapes. */
  predicate IsPlain(word: string) {
    && word != [] && word[0] != '"' && word[0] != '>' && word[0] != '#'
    && forall i :: 0 <= i < |word| ==>
         word[i] != ' ' && word[i] != '\t' && word[i] != '\n' && word[i] != '\\' && word[i] != '$' && word[i] != '`'
  }

  function Write(w: Written): string {
    match w
    case Plain(word) => word
    case Bare(word) => Escape(word)
    case Quoted(word) => "\"" + Escape(word) + "\""
    case Redirect => ">"
    case Append => ">>"
  }

  /** The argument it is to be read back as. */
  function Meant(w: Written): string {
    match w
    case Plain(word) => word
    case Bare(word) => word
    case Quoted(word) => word
    case Redirect => ">"
    case Append => ">>"
  }

  /** Something written, and the blanks behind it. */
  datatype Item = Item(what: Written, gap: string)

  /** A line: items, and perhaps a comment. */
  function WriteLine(items: seq<Item>, comment: Option<string>): string {
    if items != [] then Write(items[0].what) + (items[0].gap + WriteLine(items[1..], comment))
    else match comment case None => "" case Some(text) => "#" + text
  }

  /** A word outside quotes is not empty and is parted from what follows, and so are two
      redirections. */
  predicate Fits(items: seq<Item>, comment: Option<string>) {
    items != [] ==>
      var Item(what, gap) := items[0];
      && IsBlank(gap) && Fits(items[1..], comment)
      && (what.Plain? ==> IsPlain(what.word)) && (what.Bare? ==> what.word != [])
      && (what.Plain? || what.Bare? ==> gap != [] || (|items| == 1 && comment.None?))
      && (what.Redirect? && gap == [] && |items| > 1 ==> !items[1].what.Redirect? && !items[1].what.Append?)
  }

  lemma ExpandEscaped(word: string, look: string -> string)
    ensures Expand(Escape(word), look) == word
  {
    EscapeReads(word);
    WordEnds(word, "", Reference);
    assert Escape(word) + "" == Escape(word);
  }

  lemma {:induction false} UnescapePlain(word: string)
    requires forall i :: 0 <= i < |word| ==> word[i] != ESC
    ensures Unescape(word) == word
    decreases |word|
  {
    if word != [] {
      UnescapePlain(word[1..]);
    }
  }

  lemma PlainEnds(word: string, rest: string)
    requires IsPlain(word) && (rest == [] || IsBlank(rest[..1]))
    ensures FirstLive(word + rest, 0, Separator) == |word|
  {
    var s := word + rest;
    forall j | 0 <= j < |word|
      ensures !LiveIn(s, j, Separator)
    {
      assert s[j] == word[j];
    }
    if rest != [] {
      assert s[|word|] == rest[..1][0];
      assert s[..|word|] == word && word[|word| - 1] != ESC;
      assert LiveIn(s, |word|, Separator);
    }
  }

  lemma PlainExpands(word: string, look: string -> string)
    requires IsPlain(word)
    ensures Expand(word, look) == word
  {
    assert forall j :: 0 <= j < |word| ==> !LiveIn(word, j, Reference);
    assert FirstLive(word, 0, Reference) == |word|;
    UnescapePlain(word);
  }

  /** Reading one written word. */
  lemma ReadPlain(word: string, rest: string, look: string -> string)
    requires IsPlain(word) && (rest == [] || IsBlank(rest[..1]))
    ensures NextArgument(word + rest, look) == (Some(word), if rest != [] then rest[1..] else "")
  {
    hide Expand, FirstLive, NextArgument;
    PlainEnds(word, rest);
    PlainExpands(word, look);
    assert (word + rest)[0] == word[0] && (word + rest)[..|word|] == word;
    NextPlain(word + rest, |word|, look);
    assert rest != [] ==> (word + rest)[|word| + 1..] == rest[1..];
  }

  lemma ReadBare(word: string, rest: string, look: string -> string)
    requires word != [] && (rest == [] || IsBlank(rest[..1]))
    ensures NextArgument(Escape(word) + rest, look) == (Some(word), if rest != [] then rest[1..] else "")
  {
    var e := Escape(word);
    EscapeReads(word);
    ExpandEscaped(word, look);
    WordEnds(word, rest, Separator);
    NextPlain(e + rest, |e|, look);
    assert (e + rest)[..|e|] == e;
    assert rest != [] ==> (e + rest)[|e| + 1..] == rest[1..];
  }

  lemma ReadQuoted(word: string, rest: string, look: string -> string)
    ensures NextArgument(Write(Quoted(word)) + rest, look) == (Some(word), rest)
  {
    hide NextArgument, Escape, Expand, FirstLive;
    var e := Escape(word);
    ExpandEscaped(word, look);
    var line := Write(Quoted(word)) + rest;
    var body := e + ("\"" + rest);
    assert line[0] == '"' && line[1..] == body;
    WordEnds(word, "\"" + rest, DoubleQuote);
    NextQuoted(line, |e|, look);
    assert body[..|e|] == e && body[|e| + 1..] == rest;
  }

  /** A redirection is itself, and two signs are not one. */
  lemma ReadRedirection(rest: string, look: string -> string)
    ensures NextArgument(">>" + rest, look) == (Some(">>"), rest)
    ensures rest == [] || rest[0] != '>' ==> NextArgument(">" + rest, look) == (Some(">"), rest)
  {
    assert (">>" + rest)[2..] == rest && (">" + rest)[1..] == rest;
    assert rest != [] ==> (">" + rest)[1] == rest[0];
  }

  lemma ReadComment(text: string, look: string -> string)
    ensures NextArgument("#" + text, look).0 == None
  {
    assert ("#" + text)[0] == '#';
  }

  lemma NextBlank(c: char, s: string, look: string -> string)
    requires IsBlank([c])
    ensures NextArgument(s, look).0.Some? ==> NextArgument([c] + s, look) == NextArgument(s, look)
    ensures NextArgument(s, look).0.None? ==> NextArgument([c] + s, look).0.None?
  {
    assert [c][0] == c;
    assert ([c] + s)[1..] == s;
    assert SkipSeparators([c] + s) == SkipSeparators(s);
  }

  lemma NoArguments(s: string, look: string -> string)
    requires NextArgument(s, look).0.None?
    ensures Arguments(s, look) == []
  {
  }

  lemma OneBlank(c: char, s: string, look: string -> string)
    requires IsBlank([c])
    ensures Arguments([c] + s, look) == Arguments(s, look)
  {
    hide NextArgument, Arguments, IsBlank;
    NextBlank(c, s, look);
    var (argument, rest) := NextArgument(s, look);
    if argument.Some? {
      ArgumentsNext(s, look, argument.value, rest);
      ArgumentsNext([c] + s, look, argument.value, rest);
    } else {
      NoArguments(s, look);
      NoArguments([c] + s, look);
    }
  }

  /** Blanks before an argument do not matter. */
  lemma {:induction false} LeadingBlanks(gap: string, s: string, look: string -> string)
    requires IsBlank(gap)
    ensures Arguments(gap + s, look) == Arguments(s, look)
    decreases |gap|
  {
    hide Arguments;
    if gap == [] {
      assert gap + s == s;
    } else {
      LeadingBlanks(gap[1..], s, look);
      assert gap + s == [gap[0]] + (gap[1..] + s);
      OneBlank(gap[0], gap[1..] + s, look);
    }
  }

  function Words(items: seq<Item>): seq<string> {
    if items == [] then [] else [Meant(items[0].what)] + Words(items[1..])
  }

  /** What follows a redirection without a blank does not make it another. */
  lemma NoOtherSign(items: seq<Item>, comment: Option<string>)
    requires items != [] && Fits(items, comment) && items[0].what.Redirect?
    ensures var rest := items[0].gap + WriteLine(items[1..], comment); rest == [] || rest[0] != '>'
  {
    if items[0].gap == [] && |items| > 1 {
      assert items[1..][0] == items[1];
      if items[1].what.Bare? {
        EscapeReads(items[1].what.word);
      }
    }
  }

  /** Reading the first of the items leaves the blanks behind it, or all but the first of them. */
  lemma ReadItem(items: seq<Item>, comment: Option<string>, look: string -> string) returns (gap: string)
    requires items != [] && Fits(items, comment)
    ensures IsBlank(gap)
    ensures NextArgument(WriteLine(items, comment), look) ==
            (Some(Meant(items[0].what)), gap + WriteLine(items[1..], comment))
  {
    hide NextArgument, Escape;
    gap := items[0].gap;
    var later := WriteLine(items[1..], comment);
    match items[0].what
    case Plain(word) =>
      ReadPlain(word, gap + later, look);
      if gap != [] {
        assert (gap + later)[1..] == gap[1..] + later;
        gap := gap[1..];
      }
    case Bare(word) =>
      ReadBare(word, gap + later, look);
      if gap != [] {
        assert (gap + later)[1..] == gap[1..] + later;
        gap := gap[1..];
      }
    case Quoted(word) => ReadQuoted(word, gap + later, look);
    case Redirect =>
      NoOtherSign(items, comment);
      ReadRedirection(gap + later, look);
    case Append => ReadRedirection(gap + later, look);
  }

  lemma EmptyLine(look: string -> string)
    ensures NextArgument("", look).0 == None
  {
  }

  /** Words and redirections written on a line are read back as they were, each by one call, whatever
      the characters of the words and the blanks between them; then there is no further argument,
      whatever the comment says. */
  lemma {:induction false} LineRoundTrip(items: seq<Item>, comment: Option<string>, look: string -> string)
    requires Fits(items, comment)
    ensures Arguments(WriteLine(items, comment), look) == Words(items)
    decreases |items|
  {
    hide NextArgument;
    if items != [] {
      var later := WriteLine(items[1..], comment);
      var gap := ReadItem(items, comment, look);
      ArgumentsNext(WriteLine(items, comment), look, Meant(items[0].what), gap + later);
      LeadingBlanks(gap, later, look);
      LineRoundTrip(items[1..], comment, look);
    } else if comment.Some? {
      ReadComment(comment.value, look);
      NoArguments("#" + comment.value, look);
    } else {
      assert NextArgument("", look).0 == None by { EmptyLine(look); }
      NoArguments("", look);
    }
  }
}
