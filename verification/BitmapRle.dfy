/** Converting a row of an image: each pixel becomes the index of the nearest palette color, and the
    row of indices becomes a list of runs. */
module BitmapRle {
  import opened Wrappers

  datatype Color = Color(r: int, g: int, b: int)

  function Square(x: int): int {
    x * x
  }

  function Distance(a: Color, b: Color): int {
    Square(a.r - b.r) + Square(a.g - b.g) + Square(a.b - b.b)
  }

  /** The place of the first entry that is this color. */
  function IndexOf(palette: seq<Color>, color: Color): Option<nat> {
    if palette == [] then None
    else if palette[0] == color then Some(0)
    else match IndexOf(palette[1..], color) case None => None case Some(i) => Some(i + 1)
  }

  /** The first of the entries nearest to a color. */
  function Nearest(palette: seq<Color>, color: Color): Color
    requires palette != []
  {
    if |palette| == 1 then palette[0]
    else
      var other := Nearest(palette[1..], color);
      if Distance(color, palette[0]) <= Distance(color, other) then palette[0] else other
  }

  function Quantize(color: Color, palette: seq<Color>): nat
    requires palette != []
  {
    match IndexOf(palette, color)
    case Some(i) => i
    case None => match IndexOf(palette, Nearest(palette, color)) case Some(i) => i case None => 0
  }

  lemma {:induction false} IndexOfFirst(palette: seq<Color>, color: Color)
    ensures match IndexOf(palette, color)
            case Some(i) => i < |palette| && palette[i] == color && forall j :: 0 <= j < i ==> palette[j] != color
            case None => color !in palette
  {
    if palette != [] {
      IndexOfFirst(palette[1..], color);
      assert palette == [palette[0]] + palette[1..];
    }
  }

  lemma {:induction false} NearestIsFirst(palette: seq<Color>, color: Color)
    requires palette != []
    ensures IndexOf(palette, Nearest(palette, color)).Some?
    ensures var best, i := Nearest(palette, color), IndexOf(palette, Nearest(palette, color)).value;
            && (forall j :: 0 <= j < |palette| ==> Distance(color, best) <= Distance(color, palette[j]))
            && (forall j :: 0 <= j < i && j < |palette| ==> Distance(color, best) < Distance(color, palette[j]))
    decreases |palette|
  {
    if |palette| > 1 {
      var rest, best := palette[1..], Nearest(palette, color);
      NearestIsFirst(rest, color);
      assert forall j :: 0 < j < |palette| ==> palette[j] == rest[j - 1];
      if best == palette[0] {
        assert IndexOf(palette, best) == Some(0);
      } else {
        assert IndexOf(palette, best) == Some(IndexOf(rest, best).value + 1);
      }
    }
  }

  lemma SquareSign(x: int)
    ensures Square(x) >= 0 && (Square(x) == 0 <==> x == 0)
  {
  }

  lemma NoDistance(a: Color, b: Color)
    ensures Distance(a, b) >= 0 && (Distance(a, b) == 0 <==> a == b)
  {
    SquareSign(a.r - b.r);
    SquareSign(a.g - b.g);
    SquareSign(a.b - b.b);
  }

  /** The smallest index of a palette entry whose channels differ least, in the sum of squares. */
  ghost predicate IsNearest(color: Color, palette: seq<Color>, i: nat) {
    && i < |palette|
    && forall j :: 0 <= j < |palette| ==>
         var p, q := palette[i], palette[j];
         var r, g, b := color.r - p.r, color.g - p.g, color.b - p.b;
         var r', g', b' := color.r - q.r, color.g - q.g, color.b - q.b;
         var here, there := r * r + g * g + b * b, r' * r' + g' * g' + b' * b';
         if j < i then here < there else here <= there
  }

  /** The index found is the smallest of those whose colors are nearest. */
  lemma QuantizeNearest(color: Color, palette: seq<Color>)
    requires palette != []
    ensures IsNearest(color, palette, Quantize(color, palette))
  {
    IndexOfFirst(palette, color);
    IndexOfFirst(palette, Nearest(palette, color));
    NearestIsFirst(palette, color);
    if IndexOf(palette, color).Some? {
      forall j | 0 <= j < |palette|
        ensures Distance(color, palette[j]) >= 0 && (Distance(color, palette[j]) == 0 <==> palette[j] == color)
      {
        NoDistance(color, palette[j]);
      }
    }
  }

  /** Each index stands for the pixel at its place. */
  ghost predicate Shows(indices: seq<nat>, row: seq<Color>, palette: seq<Color>) {
    |indices| == |row| && forall x :: 0 <= x < |row| ==> IsNearest(row[x], palette, indices[x])
  }

  /** There is only one such index, so a row is shown in one way only. */
  lemma ShownOnce(indices: seq<nat>, indices': seq<nat>, row: seq<Color>, palette: seq<Color>)
    requires Shows(indices, row, palette) && Shows(indices', row, palette)
    ensures indices == indices'
  {
    forall x | 0 <= x < |row|
      ensures indices[x] == indices'[x]
    {
      assert IsNearest(row[x], palette, indices[x]) && IsNearest(row[x], palette, indices'[x]);
      var p, q := palette[indices[x]], palette[indices'[x]];
    }
  }

  lemma ShowsMore(indices: seq<nat>, row: seq<Color>, palette: seq<Color>, i: nat, color: Color)
    requires Shows(indices, row, palette) && IsNearest(color, palette, i)
    ensures Shows(indices + [i], row + [color], palette)
  {
  }

  // ----- runs -----

  datatype Run = Run(repeats: nat, color: nat)

  function Repeat(n: nat, color: nat): seq<nat> {
    seq(n, _ => color)
  }

  function Decode(runs: seq<Run>): seq<nat> {
    if runs == [] then [] else Repeat(runs[0].repeats, runs[0].color) + Decode(runs[1..])
  }

  /** Every run length fits in a byte and none is zero. */
  predicate IsRuns(runs: seq<Run>) {
    forall i :: 0 <= i < |runs| ==> 1 <= runs[i].repeats <= 255
  }

  /** Each run goes on as long as it can. */
  predicate Greedy(runs: seq<Run>) {
    forall i :: 0 <= i < |runs| - 1 ==> runs[i].repeats == 255 || runs[i].color != runs[i + 1].color
  }

  lemma {:induction false} DecodeAppend(runs: seq<Run>, last: Run)
    ensures Decode(runs + [last]) == Decode(runs) + Repeat(last.repeats, last.color)
    decreases |runs|
  {
    if runs == [] {
      assert runs + [last] == [last] && [last][1..] == [];
    } else {
      assert (runs + [last])[1..] == runs[1..] + [last];
      DecodeAppend(runs[1..], last);
    }
  }

  lemma SecondColor(runs: seq<Run>)
    requires |runs| > 1 && IsRuns(runs)
    ensures |Decode(runs)| > runs[0].repeats && Decode(runs)[runs[0].repeats] == runs[1].color
  {
    assert runs[1..][0] == runs[1];
  }

  /** A greedy first run is at least as long as any run of one color that the row begins with. */
  lemma GreedyFirst(runs: seq<Run>, k: nat, color: nat)
    requires runs != [] && IsRuns(runs) && Greedy(runs) && 1 <= k <= 255
    requires k <= |Decode(runs)| && Decode(runs)[..k] == Repeat(k, color)
    ensures runs[0].color == color && k <= runs[0].repeats
  {
    var n := runs[0].repeats;
    assert Decode(runs)[0] == Decode(runs)[..k][0];
    if |runs| > 1 {
      SecondColor(runs);
    }
  }

  /** However many pixels come before, no list of runs ends in a greedy list's row with fewer runs. */
  lemma {:induction false} FewestRuns(runs: seq<Run>, other: seq<Run>, before: seq<nat>)
    requires IsRuns(runs) && Greedy(runs) && IsRuns(other) && Decode(other) == before + Decode(runs)
    ensures |runs| <= |other|
    decreases |other|
  {
    if runs != [] && other != [] {
      var m, n, c := other[0].repeats, runs[0].repeats, other[0].color;
      var rest := other[1..];
      assert Decode(rest) == (before + Decode(runs))[m..];
      if m <= |before| {
        assert Decode(rest) == before[m..] + Decode(runs);
        FewestRuns(runs, rest, before[m..]);
      } else {
        var k := m - |before|;
        assert Decode(runs)[..k] == Repeat(m, c)[|before|..] == Repeat(k, c);
        GreedyFirst(runs, k, c);
        assert Decode(rest) == Repeat(n - k, c) + Decode(runs[1..]);
        FewestRuns(runs[1..], rest, Repeat(n - k, c));
      }
    }
  }

  /** One pixel more. */
  lemma LongerRun(entries: seq<Run>, repeats: nat, color: nat)
    requires IsRuns(entries + [Run(repeats, color)]) && Greedy(entries + [Run(repeats, color)]) && repeats < 255
    ensures IsRuns(entries + [Run(repeats + 1, color)]) && Greedy(entries + [Run(repeats + 1, color)])
    ensures Decode(entries + [Run(repeats + 1, color)]) == Decode(entries + [Run(repeats, color)]) + [color]
  {
    var a, b := entries + [Run(repeats, color)], entries + [Run(repeats + 1, color)];
    forall i | 0 <= i < |b|
      ensures 1 <= b[i].repeats <= 255
    {
      assert 1 <= a[i].repeats <= 255;
    }
    forall i | 0 <= i < |b| - 1
      ensures b[i].repeats == 255 || b[i].color != b[i + 1].color
    {
      assert a[i].repeats == 255 || a[i].color != a[i + 1].color;
    }
    DecodeAppend(entries, Run(repeats, color));
    DecodeAppend(entries, Run(repeats + 1, color));
    assert Repeat(repeats + 1, color) == Repeat(repeats, color) + [color];
  }

  lemma NewRun(entries: seq<Run>, last: Run, color: nat)
    requires IsRuns(entries + [last]) && Greedy(entries + [last]) && (last.color != color || last.repeats == 255)
    ensures IsRuns(entries + [last] + [Run(1, color)]) && Greedy(entries + [last] + [Run(1, color)])
    ensures Decode(entries + [last] + [Run(1, color)]) == Decode(entries + [last]) + [color]
  {
    DecodeAppend(entries + [last], Run(1, color));
    assert Repeat(1, color) == [color];
  }

  /** Encodes a row.  The runs decode to the indices of the nearest colors, pixel by pixel, each run
      fits in a byte, and no other list of such runs is shorter. */
  method EncodeRow(row: seq<Color>, palette: seq<Color>) returns (entries: seq<Run>)
    requires row != [] ==> palette != []
    ensures Shows(Decode(entries), row, palette) && IsRuns(entries) && Greedy(entries)
    ensures forall other :: IsRuns(other) && Decode(other) == Decode(entries) ==> |entries| <= |other|
  {
    hide IsNearest;
    entries := [];
    var color: Option<nat> := None;
    var repeats: nat := 0;
    for x := 0 to |row|
      invariant color.None? ==> x == 0 && entries == []
      invariant color.Some? ==>
                  && Shows(Decode(entries + [Run(repeats, color.value)]), row[..x], palette)
                  && IsRuns(entries + [Run(repeats, color.value)]) && Greedy(entries + [Run(repeats, color.value)])
    {
      var c := Quantize(row[x], palette);
      QuantizeNearest(row[x], palette);
      ghost var shown := if color.Some? then Decode(entries + [Run(repeats, color.value)]) else [];
      ShowsMore(shown, row[..x], palette, c, row[x]);
      assert row[..x] + [row[x]] == row[..x + 1];
      if color == Some(c) && repeats < 255 {
        LongerRun(entries, repeats, c);
        repeats := repeats + 1;
      } else {
        if color.Some? {
          NewRun(entries, Run(repeats, color.value), c);
          entries := entries + [Run(repeats, color.value)];
        } else {
          DecodeAppend([], Run(1, c));
        }
        repeats, color := 1, Some(c);
      }
    }
    assert row[..|row|] == row;
    if color.Some? {
      entries := entries + [Run(repeats, color.value)];
    }
    forall other | IsRuns(other) && Decode(other) == Decode(entries)
      ensures |entries| <= |other|
    {
      FewestRuns(entries, other, []);
    }
  }
}
