/** Why a break in an `if` need not go wrong once loops stand in ifs: here the outer loop's break
    moves the if index back up, onto the slot that the `fi` after the inner break had left too
    early, and the script ends as documented.  The lists have lost the slots by then. */
module ScriptStale {
  import opened Wrappers
  import opened NshParser
  import opened NshScript
  import opened ScriptSemantics
  import opened NshSlots

  /** Every command succeeds and is noted down. */
  const HOST: Host<seq<Line>> := Host((line, w, f) => (w + [line], false), false, true, true)

  /** Where `p` is, with its table, after one more line. */
  function Onto<W>(p: Spot<W>, t: Table, world: W): Spot<W> {
    Spot(p.pc + 1, t.(fail := false), world, false, false)
  }

  predicate Ready(p: Spot<seq<Line>>) {
    !p.halted && Enabled(p.t) && IfTop(p.t).state != IfIf && !AwaitsDo(p.t) && !p.t.fail
  }

  function OpenIf(t: Table): Table
    requires t.iendx + 1 < |t.ie|
  {
    t.(iendx := t.iendx + 1, ie := t.ie[t.iendx + 1 := IfEntry(IfIf, false, false, false)])
  }

  lemma IfSaved(t: Table)
    requires IfTop(t) == IfEntry(IfIf, false, false, false) && !AwaitsDo(t)
    ensures Save(t, false) == (t.(fail := false), false)
  {
    assert SetIfTop(t, IfTop(t)) == t;
  }

  lemma AtIf(script: seq<Line>, p: Spot<seq<Line>>, cond: Line)
    requires LineAt(script, p.pc, [IfW] + cond) && Plain(cond) && Ready(p) && p.t.iendx + 1 < |p.t.ie|
    ensures NshSlots.Turn(script, HOST, p) == Onto(p, OpenIf(p.t), p.world + [cond])
  {
    hide Save;
    assert ([IfW] + cond)[1..] == cond;
    IfSaved(OpenIf(p.t));
  }

  lemma AtThen(script: seq<Line>, p: Spot<seq<Line>>)
    requires LineAt(script, p.pc, [ThenW]) && !p.halted && IfTop(p.t).state == IfIf && !AwaitsDo(p.t) && !p.t.fail
    ensures NshSlots.Turn(script, HOST, p) == Onto(p, SetIfTop(p.t, IfTop(p.t).(state := IfThen)), p.world)
  {
  }

  lemma LoopSaved(t: Table)
    requires LoopTop(t).state == LoopWhile && LoopTop(t).enable
    ensures Save(t, false) == (t.(fail := false), false)
  {
    assert SetLoopTop(t, LoopTop(t)) == t;
  }

  lemma AtWhile(script: seq<Line>, p: Spot<seq<Line>>, cond: Line)
    requires LineAt(script, p.pc, [WhileW] + cond) && Plain(cond) && Ready(p) && p.t.lpndx + 1 < |p.t.lp|
    ensures NshSlots.Turn(script, HOST, p) ==
            Onto(p, PushLoop(p.t, LoopEntry(LoopWhile, true, p.t.iendx, p.pc)), p.world + [cond])
  {
    hide Save;
    assert ([WhileW] + cond)[1..] == cond;
    LoopSaved(PushLoop(p.t, LoopEntry(LoopWhile, true, p.t.iendx, p.pc)));
  }

  lemma AtDo(script: seq<Line>, p: Spot<seq<Line>>)
    requires LineAt(script, p.pc, [DoW]) && !p.halted && AwaitsDo(p.t) && IfTop(p.t).state != IfIf && !p.t.fail
    ensures NshSlots.Turn(script, HOST, p) == Onto(p, SetLoopTop(p.t, LoopTop(p.t).(state := LoopDo)), p.world)
  {
  }

  lemma AtBreak(script: seq<Line>, p: Spot<seq<Line>>)
    requires LineAt(script, p.pc, [BreakW]) && Ready(p) && LoopTop(p.t).state == LoopDo
    requires p.t.ie[LoopTop(p.t).iendx].state != IfIf
    ensures NshSlots.Turn(script, HOST, p) == Onto(p, NshSlots.Break(p.t), p.world)
  {
  }

  lemma AtFi(script: seq<Line>, p: Spot<seq<Line>>)
    requires LineAt(script, p.pc, [FiW]) && !p.halted && IfTop(p.t).state == IfThen && !AwaitsDo(p.t) && !p.t.fail
    ensures NshSlots.Turn(script, HOST, p) == Onto(p, LeaveIf(p.t), p.world)
  {
  }

  lemma AtDone(script: seq<Line>, p: Spot<seq<Line>>)
    requires LineAt(script, p.pc, [DoneW]) && !p.halted && LoopTop(p.t).state == LoopDo && !LoopTop(p.t).enable
    requires IfTop(p.t).state != IfIf && !p.t.fail
    ensures NshSlots.Turn(script, HOST, p) == Onto(p, PopLoop(p.t), p.world)
  {
  }

  lemma AtEnd(script: seq<Line>, p: Spot<seq<Line>>)
    requires p.pc == |script|
    ensures NshSlots.Turn(script, HOST, p) == p.(halted := true)
  {
  }

  lemma OneMore(k: nat, script: seq<Line>, p0: Spot<seq<Line>>, p: Spot<seq<Line>>)
    requires p == Turns(k, script, HOST, p0)
    ensures NshSlots.Turn(script, HOST, p) == Turns(k + 1, script, HOST, p0)
  {
    hide NshSlots.Turn;
  }

  /** The table after an `if` and a loop have been entered. */
  function Opened(t: Table, pc: nat): Table
    requires Enabled(t) && !AwaitsDo(t) && t.iendx + 1 < |t.ie| && t.lpndx + 1 < |t.lp|
  {
    var t1 := t.(iendx := t.iendx + 1, ie := t.ie[t.iendx + 1 := IfEntry(IfThen, false, false, false)]);
    PushLoop(t1, LoopEntry(LoopDo, true, t.iendx + 1, pc + 2)).(fail := false)
  }

  lemma Opening(k: nat, script: seq<Line>, p0: Spot<seq<Line>>, p: Spot<seq<Line>>, cond: Line, test: Line)
    requires p == Turns(k, script, HOST, p0)
    requires LineAt(script, p.pc, [IfW] + cond) && LineAt(script, p.pc + 1, [ThenW])
    requires LineAt(script, p.pc + 2, [WhileW] + test) && LineAt(script, p.pc + 3, [DoW])
    requires Plain(cond) && Plain(test) && Ready(p) && p.t.iendx + 1 < |p.t.ie| && p.t.lpndx + 1 < |p.t.lp|
    ensures Turns(k + 4, script, HOST, p0) ==
            Spot(p.pc + 4, Opened(p.t, p.pc), p.world + [cond] + [test], false, false)
  {
    hide NshSlots.Turn, Turns;
    AtIf(script, p, cond);
    OneMore(k, script, p0, p);
    var p1 := NshSlots.Turn(script, HOST, p);
    AtThen(script, p1);
    OneMore(k + 1, script, p0, p1);
    var p2 := NshSlots.Turn(script, HOST, p1);
    AtWhile(script, p2, test);
    OneMore(k + 2, script, p0, p2);
    var p3 := NshSlots.Turn(script, HOST, p2);
    AtDo(script, p3);
    OneMore(k + 3, script, p0, p3);
    assert NshSlots.Turn(script, HOST, p3).t == Opened(p.t, p.pc);
  }

  /** The inner break leaves one `if` too many, ... */
  lemma Inner(k: nat, script: seq<Line>, p0: Spot<seq<Line>>, p: Spot<seq<Line>>, cond: Line)
    returns (q: Spot<seq<Line>>)
    requires p == Turns(k, script, HOST, p0)
    requires LineAt(script, p.pc, [IfW] + cond) && LineAt(script, p.pc + 1, [ThenW])
    requires LineAt(script, p.pc + 2, [BreakW]) && LineAt(script, p.pc + 3, [FiW])
    requires Plain(cond) && Ready(p) && p.t.iendx + 1 < |p.t.ie|
    requires LoopTop(p.t).state == LoopDo && LoopTop(p.t).iendx == p.t.iendx && IfTop(p.t).state == IfThen
    ensures q == Turns(k + 4, script, HOST, p0) && q.pc == p.pc + 4 && q.world == p.world + [cond]
    ensures !q.halted && !q.t.fail && !q.err
    ensures q.t.iendx == p.t.iendx - 1 && q.t.lpndx == p.t.lpndx && |q.t.ie| == |p.t.ie|
    ensures forall i :: 0 <= i <= p.t.iendx ==> q.t.ie[i] == p.t.ie[i]
    ensures q.t.lp == p.t.lp[p.t.lpndx := LoopTop(p.t).(enable := false)]
  {
    hide NshSlots.Turn, Turns;
    AtIf(script, p, cond);
    OneMore(k, script, p0, p);
    var p1 := NshSlots.Turn(script, HOST, p);
    AtThen(script, p1);
    OneMore(k + 1, script, p0, p1);
    var p2 := NshSlots.Turn(script, HOST, p1);
    AtBreak(script, p2);
    OneMore(k + 2, script, p0, p2);
    var p3 := NshSlots.Turn(script, HOST, p2);
    AtFi(script, p3);
    OneMore(k + 3, script, p0, p3);
    q := NshSlots.Turn(script, HOST, p3);
  }

  /** ... the `done` and `fi` after it leave another, ... */
  lemma Between(k: nat, script: seq<Line>, p0: Spot<seq<Line>>, p: Spot<seq<Line>>) returns (q: Spot<seq<Line>>)
    requires p == Turns(k, script, HOST, p0) && !p.halted && !p.t.fail
    requires LineAt(script, p.pc, [DoneW]) && LineAt(script, p.pc + 1, [FiW])
    requires LoopTop(p.t).state == LoopDo && !LoopTop(p.t).enable && IfTop(p.t).state == IfThen
    ensures q == Turns(k + 2, script, HOST, p0)
    ensures q == Spot(p.pc + 2, LeaveIf(PopLoop(p.t)), p.world, false, false)
  {
    hide NshSlots.Turn, Turns;
    AtDone(script, p);
    OneMore(k, script, p0, p);
    var p1 := NshSlots.Turn(script, HOST, p);
    AtFi(script, p1);
    OneMore(k + 1, script, p0, p1);
    q := NshSlots.Turn(script, HOST, p1);
  }

  /** ... and the outer break brings it back. */
  lemma Outer(k: nat, script: seq<Line>, p0: Spot<seq<Line>>, p: Spot<seq<Line>>) returns (q: Spot<seq<Line>>)
    requires p == Turns(k, script, HOST, p0) && Ready(p)
    requires LineAt(script, p.pc, [BreakW]) && LineAt(script, p.pc + 1, [DoneW]) && LineAt(script, p.pc + 2, [FiW])
    requires |script| == p.pc + 3
    requires LoopTop(p.t).state == LoopDo && p.t.ie[LoopTop(p.t).iendx].state == IfThen
    ensures q == Turns(k + 4, script, HOST, p0) && q.halted && !q.err && !q.t.fail && q.world == p.world
    ensures q.t.iendx == LoopTop(p.t).iendx - 1 && q.t.lpndx == p.t.lpndx - 1
  {
    hide NshSlots.Turn, Turns;
    AtBreak(script, p);
    OneMore(k, script, p0, p);
    var p1 := NshSlots.Turn(script, HOST, p);
    q := Between(k + 1, script, p0, p1);
    OneMore(k + 3, script, p0, q);
    AtEnd(script, q);
    q := NshSlots.Turn(script, HOST, q);
  }

  function InnerLoop(c2: Line, t2: Line): Code {
    Loop(false, c2, If(false, t2, Break, None))
  }

  function OuterLoop(c1: Line, t1: Line, c2: Line, t2: Line): Code {
    Loop(false, c1, Seq(If(false, t1, InnerLoop(c2, t2), None), Break))
  }

  function Nested(t0: Line, c1: Line, t1: Line, c2: Line, t2: Line): Code {
    If(false, t0, OuterLoop(c1, t1, c2, t2), None)
  }

  lemma Meant(fuel: nat, t0: Line, c1: Line, t1: Line, c2: Line, t2: Line)
    requires fuel >= 2
    ensures Intended(fuel, Nested(t0, c1, t1, c2, t2), Top, HOST, State([], false, true)) ==
            Done(State([t0] + [c1] + [t1] + [c2] + [t2], false, false), Signal.Next)
  {
    var s1 := State([t0] + [c1] + [t1], false, false);
    var s2 := State([t0] + [c1] + [t1] + [c2] + [t2], false, false);
    assert Intended(fuel - 2, If(false, t2, Break, None), InLoop, HOST, State(s1.world + [c2], false, false)) ==
           Done(s2, Broke);
    assert Intended(fuel - 1, InnerLoop(c2, t2), InLoopIf, HOST, s1) == Done(s2, Signal.Next);
    assert Intended(fuel - 1, If(false, t1, InnerLoop(c2, t2), None), InLoop, HOST, State([t0] + [c1], false, false)) ==
           Done(s2, Signal.Next);
    assert Intended(fuel - 1, OuterLoop(c1, t1, c2, t2).body, InLoop, HOST, State([t0] + [c1], false, false)) ==
           Done(s2, Broke);
    assert Intended(fuel, OuterLoop(c1, t1, c2, t2), Top, HOST, State([t0], false, false)) == Done(s2, Signal.Next);
    assert [] + [t0] == [t0];
  }

  /** In a fresh shell with room for three ifs. */
  predicate Fresh(p: Spot<seq<Line>>) {
    p.pc == 0 && p.world == [] && p.err && !p.halted && p.t.iendx == 0 && p.t.lpndx == 0 && !p.t.fail && |p.t.ie| >= 4
  }

  lemma Reading(script: seq<Line>, t0: Line, c1: Line, t1: Line, c2: Line, t2: Line)
    requires At(script, 0, Nested(t0, c1, t1, c2, t2))
    ensures LineAt(script, 0, [IfW] + t0) && LineAt(script, 1, [ThenW])
    ensures LineAt(script, 2, [WhileW] + c1) && LineAt(script, 3, [DoW])
    ensures LineAt(script, 4, [IfW] + t1) && LineAt(script, 5, [ThenW])
    ensures LineAt(script, 6, [WhileW] + c2) && LineAt(script, 7, [DoW])
    ensures LineAt(script, 8, [IfW] + t2) && LineAt(script, 9, [ThenW])
    ensures LineAt(script, 10, [BreakW]) && LineAt(script, 11, [FiW])
    ensures LineAt(script, 12, [DoneW]) && LineAt(script, 13, [FiW])
    ensures LineAt(script, 14, [BreakW]) && LineAt(script, 15, [DoneW]) && LineAt(script, 16, [FiW])
  {
    var test := If(false, t2, Break, None);
    var inner := InnerLoop(c2, t2);
    var middle := If(false, t1, inner, None);
    var outer := OuterLoop(c1, t1, c2, t2);
    assert Size(test) == 4;
    assert Size(inner) == 7;
    assert Size(middle) == 10;
    assert Size(outer) == 14;
    assert At(script, 2, outer);
    assert At(script, 4, outer.body);
    assert At(script, 4, middle);
    assert At(script, 6, inner);
    assert At(script, 8, test);
    assert At(script, 10, Break);
    assert At(script, 14, Break);
  }

  lemma LostNow(script: seq<Line>, p: Spot<seq<Line>>, c: Config<seq<Line>>)
    requires Follows(p, c) && Ready(p) && LineAt(script, p.pc, [BreakW])
    requires LoopTop(p.t).state == LoopDo && LoopTop(p.t).iendx > p.t.iendx
    ensures Step(script, HOST, c).np.lost
  {
    hide View;
    ViewParts(p.t);
    EnabledView(p.t);
    if c.np.lost {
      LostStays(script, HOST, c);
    }
  }

  /** A break that moves the if index up loses the slots. */
  lemma Loses(k: nat, n: nat, script: seq<Line>, p0: Spot<seq<Line>>, p: Spot<seq<Line>>, c: Config<seq<Line>>)
    requires Follows(p0, c) && p == Turns(k, script, HOST, p0) && k < n
    requires Ready(p) && LineAt(script, p.pc, [BreakW])
    requires LoopTop(p.t).state == LoopDo && LoopTop(p.t).iendx > p.t.iendx
    ensures Run(n, script, HOST, c).np.lost
  {
    hide Turns, Run;
    TurnsFollow(k, script, HOST, p0, c);
    var c1 := Run(k, script, HOST, c);
    LostNow(script, p, c1);
    RunAdd(k, n - k, script, HOST, c);
    RunUnfold(n - k - 1, script, HOST, c1);
    LostForGood(n - k - 1, script, HOST, Step(script, HOST, c1));
  }

  lemma Going(script: seq<Line>, p: Spot<seq<Line>>, t0: Line, c1: Line, t1: Line, c2: Line, t2: Line)
    requires Fresh(p) && At(script, 0, Nested(t0, c1, t1, c2, t2))
    requires Plain(t0) && Plain(c1) && Plain(t1) && Plain(c2) && Plain(t2)
    ensures var q := Turns(14, script, HOST, p);
            && q.pc == 14 && q.world == [t0] + [c1] + [t1] + [c2] + [t2] && Ready(q)
            && LoopTop(q.t).state == LoopDo && q.t.iendx == 0 && q.t.lpndx == 1
            && LoopTop(q.t).iendx == 1 && q.t.ie[1].state == IfThen
  {
    hide NshSlots.Turn, At;
    Reading(script, t0, c1, t1, c2, t2);
    Opening(0, script, p, p, t0, c1);
    var p4 := Turns(4, script, HOST, p);
    Opening(4, script, p, p4, t1, c2);
    var p8 := Turns(8, script, HOST, p);
    var p12 := Inner(8, script, p, p8, t2);
    var p14 := Between(12, script, p, p12);
    assert [] + [t0] == [t0];
  }

  /** The script does what it is documented to do, though its inner break stands in an `if`, and
      though the lists have lost the slots. */
  lemma StaleSlots(fuel: nat, script: seq<Line>, p: Spot<seq<Line>>, t0: Line, c1: Line, t1: Line, c2: Line, t2: Line)
    requires fuel >= 2 && Fresh(p) && At(script, 0, Nested(t0, c1, t1, c2, t2)) && |script| == 17
    requires Plain(t0) && Plain(c1) && Plain(t1) && Plain(c2) && Plain(t2)
    ensures var q := Turns(18, script, HOST, p);
            && q.halted && q.t.iendx == 0 && q.t.lpndx == 0
            && Intended(fuel, Nested(t0, c1, t1, c2, t2), Top, HOST, State([], false, true)) ==
               Done(State(q.world, q.t.fail, q.err), Signal.Next)
    ensures Run(18, script, HOST, Config(0, View(p.t), [], true, false)).np.lost
  {
    hide Turns, Run, Intended, At, View;
    Meant(fuel, t0, c1, t1, c2, t2);
    Reading(script, t0, c1, t1, c2, t2);
    Going(script, p, t0, c1, t1, c2, t2);
    var q := Outer(14, script, p, Turns(14, script, HOST, p));
    Loses(14, 18, script, p, Turns(14, script, HOST, p), Config(0, View(p.t), [], true, false));
  }
}
