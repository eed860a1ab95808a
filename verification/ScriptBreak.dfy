/** A break inside an `if` of the loop body: it pops the `if` it stands in, so that the
    closing `fi` is either rejected or taken for the end of an enclosing `if`. */
module ScriptBreak {
  import opened Wrappers
  import opened NshParser
  import opened NshScript
  import opened ScriptSemantics
  import opened ScriptPositions
  import opened ScriptSimulation
  import opened ScriptTheorems

  lemma {:induction false} KeepHeight<T>(stack: Stack<T>, n: nat)
    requires n <= stack.Height()
    ensures stack.Keep(n).Height() == n
    decreases stack
  {
    if n < stack.Height() {
      KeepHeight(stack.below, n);
    }
  }

  /** A break keeps the if stack exactly if no `if` was opened since the loop began. */
  lemma BreakKeepsIfs(np: Parser)
    requires np.LoopState() == LoopDo && np.loops.top.iendx <= np.ifs.Height()
    ensures BreakLoop(np).ifs == np.ifs <==> np.loops.top.iendx == np.ifs.Height()
    ensures BreakLoop(np).ifs.Height() == np.loops.top.iendx && !BreakLoop(np).LoopEnabled()
  {
    KeepHeight(np.ifs, np.loops.top.iendx);
  }

  /** The parser after a break in a loop body: every `if` opened since the loop began is gone, and
      lines are passed over up to `done`. */
  function Broken(np: Parser): Parser
    requires np.loops.Push? && np.loops.top.iendx <= np.ifs.Height()
  {
    np.(ifs := np.ifs.Keep(np.loops.top.iendx), loops := Push(np.loops.top.(enable := false), np.loops.below),
        fail := false)
  }

  lemma StepBreakOut<W>(script: seq<Line>, host: Host<W>, c: Config<W>)
    requires !c.halted && LineAt(script, c.pc, [BreakW]) && ModeOf(c.np) == Some(On) && c.np.loops.Push?
    requires ModeOf(Broken(c.np)) == Some(LoopOff)
    ensures Step(script, host, c) == Config(c.pc + 1, Broken(c.np), c.world, false, false)
  {
  }

  /** What an `else` or `fi` that comes after a break does to the `if` it meets instead of its own,
      or none if it is refused. */
  function Late(np: Parser, word: Word): Option<Parser> {
    if np.IfState() == IfThen && word == ElseW then
      Some(np.(ifs := Push(np.ifs.top.(state := IfElse), np.ifs.below)))
    else if (np.IfState() == IfThen || np.IfState() == IfElse) && word == FiW then
      Some(np.(ifs := np.ifs.below))
    else None
  }

  lemma StepLate<W>(script: seq<Line>, host: Host<W>, c: Config<W>, word: Word)
    requires !c.halted && word in {ElseW, FiW} && LineAt(script, c.pc, [word]) && ModeOf(c.np).Some?
    ensures Step(script, host, c) ==
            match Late(c.np, word)
            case Some(np) => Config(c.pc + 1, np, c.world, false, false)
            case None => Config(c.pc + 1, c.np.(ifs := Bottom, fail := true), c.world, true, !host.ignore)
  {
  }

  /** From a break, in any number of ifs opened since its loop began and in either of their parts,
      over the lines left of that part, to the `else` or `fi` after them: that line is taken for
      one of the `if` around the loop, or refused if there is none that fits. */
  lemma BreakInIf<W>(script: seq<Line>, host: Host<W>, c0: Config<W>, m: nat, c: Config<W>, rest: Code, word: Word)
    returns (n: nat)
    requires !c.halted && host.tells && host.seeks && Run(m, script, host, c0) == c
    requires LineAt(script, c.pc, [BreakW]) && At(script, c.pc + 1, rest)
    requires word in {ElseW, FiW} && LineAt(script, c.pc + 1 + Size(rest), [word])
    requires ModeOf(c.np) == Some(On) && c.np.loops.Push?
    requires Ready(Broken(c.np), LoopOff, InLoop, rest) && !DirectLoop(rest)
    ensures Run(n, script, host, c0) ==
            match Late(Broken(c.np), word)
            case Some(np) => Config(c.pc + 2 + Size(rest), np, c.world, false, false)
            case None => Config(c.pc + 2 + Size(rest), Broken(c.np).(ifs := Bottom, fail := true), c.world, true,
                                !host.ignore)
  {
    hide Step, Run, PlaceOf, Late;
    StepBreakOut(script, host, c);
    Extend(script, host, c0, m, c);
    var c1 := Config(c.pc + 1, Broken(c.np), c.world, false, false);
    n := SkippedBlock(LoopOff, rest, InLoop, script, host, c1);
    var c2 := Run(n, script, host, c1);
    RunAdd(m + 1, n, script, host, c0);
    StepLate(script, host, c2, word);
    Extend(script, host, c0, m + 1 + n, c2);
    n := m + n + 2;
  }

  /** The use of break that the README describes: leave the loop when a test succeeds. */
  function Leave(until: bool, cond: Line, inverted: bool, test: Line): Code {
    Loop(until, cond, If(inverted, test, Break, None))
  }

  /** The loop is entered and its test holds. */
  predicate Leaves<W>(until: bool, cond: Line, inverted: bool, test: Line, host: Host<W>, np: Parser, world: W) {
    var (w, failed) := host.exec(cond, world, np.fail);
    failed == until && host.exec(test, w, false).1 == inverted
  }

  lemma LeaveLayout(until: bool, cond: Line, inverted: bool, test: Line)
    ensures var script := Lines(Leave(until, cond, inverted, test));
            && |script| == 7
            && LineAt(script, 0, LoopLine(until, cond)) && LineAt(script, 1, [DoW])
            && LineAt(script, 2, IfLine(inverted, test)) && LineAt(script, 3, [ThenW])
            && LineAt(script, 4, [BreakW]) && LineAt(script, 5, [FiW]) && LineAt(script, 6, [DoneW])
  {
    var code := Leave(until, cond, inverted, test);
    LinesSize(code);
    OccursAt(Lines(code), 0, code);
    assert At(Lines(code), 2, code.body) && At(Lines(code), 4, Break);
  }

  lemma LeaveMeaning<W>(until: bool, cond: Line, inverted: bool, test: Line, host: Host<W>, np: Parser, world: W)
    requires Leaves(until, cond, inverted, test, host, np, world)
    ensures var w := host.exec(test, host.exec(cond, world, np.fail).0, false).0;
            Intended(1, Leave(until, cond, inverted, test), Top, host, State(world, np.fail, true)) ==
            Done(State(w, false, false), Next)
  {
    var (w, failed) := host.exec(cond, world, np.fail);
    var st := State(w, false, false);
    assert Intended(0, If(inverted, test, Break, None), InLoop, host, st) ==
           Done(State(host.exec(test, w, false).0, false, false), Broke) by {
      assert Intended(0, Break, InLoopIf, host, State(host.exec(test, w, false).0, false, false)).sig == Broke;
    }
  }

  /** Up to the break, in four lines. */
  lemma HeadLeave<W>(until: bool, cond: Line, inverted: bool, test: Line, host: Host<W>, np: Parser, world: W)
    requires Plain(cond) && Plain(test) && Idle(np) && np.depth >= 2 && host.tells
    requires Leaves(until, cond, inverted, test, host, np, world)
    ensures var w := host.exec(test, host.exec(cond, world, np.fail).0, false).0;
            var base := InBody(np, true, 0).(fail := false);
            Run(4, Lines(Leave(until, cond, inverted, test)), host, Begin(np, world)) ==
            Config(4, InBranch(base, inverted, inverted, IfThen), w, false, false)
  {
    var script := Lines(Leave(until, cond, inverted, test));
    var c := Begin(np, world);
    LeaveLayout(until, cond, inverted, test);
    StepLoop(script, host, c, On, until, cond);
    Extend(script, host, c, 0, c);
    var c1 := Run(1, script, host, c);
    StepDo(script, host, c1);
    Extend(script, host, c, 1, c1);
    var base := InBody(np, true, 0).(fail := false);
    var c2 := Config(2, base, host.exec(cond, world, np.fail).0, false, false);
    assert Run(2, script, host, c) == c2;
    StepIf(script, host, c2, On, inverted, test);
    Extend(script, host, c, 2, c2);
    var c3 := Run(3, script, host, c);
    StepThen(script, host, c3);
    Extend(script, host, c, 3, c3);
  }

  /** From the break on: to the `fi`, and past the `done` if errors are ignored. */
  lemma TailLeave<W>(script: seq<Line>, host: Host<W>, c0: Config<W>, m: nat, base: Parser, inverted: bool,
                     np: Parser, w: W)
    returns (n: nat)
    requires host.tells && host.seeks && Idle(np) && np.depth >= 2 && base == InBody(np, true, 0).(fail := false)
    requires |script| == 7 && LineAt(script, 4, [BreakW]) && LineAt(script, 5, [FiW]) && LineAt(script, 6, [DoneW])
    requires Run(m, script, host, c0) == Config(4, InBranch(base, inverted, inverted, IfThen), w, false, false)
    ensures var end := Run(n, script, host, c0); end.halted && StateOf(end) == State(w, true, !host.ignore)
  {
    var c4 := Config(4, InBranch(base, inverted, inverted, IfThen), w, false, false);
    assert Broken(c4.np) == InBody(np, false, 0).(fail := false);
    n := BreakInIf(script, host, c0, m, c4, Skip, FiW);
    var c6 := Run(n, script, host, c0);
    if host.ignore {
      CloseLoop(script, host, c0, n, c6, np, false, 0);
      EndOfFile(script, host, c0, n + 1, Config(7, np.(fail := true), w, false, false));
      n := n + 2;
    }
  }

  /** Such a script is meant to end well.  With `set -e` in force it stops with an error at
      its `fi`; with `set +e` it ends with the last status of a failure. */
  lemma LeaveGoesWrong<W>(until: bool, cond: Line, inverted: bool, test: Line, host: Host<W>, np: Parser, world: W)
    returns (n: nat)
    requires Plain(cond) && Plain(test) && Idle(np) && np.depth >= 2 && host.tells && host.seeks
    requires Leaves(until, cond, inverted, test, host, np, world)
    ensures var w := host.exec(test, host.exec(cond, world, np.fail).0, false).0;
            var code := Leave(until, cond, inverted, test);
            var end := Run(n, Lines(code), host, Begin(np, world));
            && Intended(1, code, Top, host, State(world, np.fail, true)) == Done(State(w, false, false), Next)
            && end.halted && StateOf(end) == State(w, true, !host.ignore)
  {
    HeadLeave(until, cond, inverted, test, host, np, world);
    LeaveLayout(until, cond, inverted, test);
    LeaveMeaning(until, cond, inverted, test, host, np, world);
    var w := host.exec(test, host.exec(cond, world, np.fail).0, false).0;
    n := TailLeave(Lines(Leave(until, cond, inverted, test)), host, Begin(np, world), 4,
                   InBody(np, true, 0).(fail := false), inverted, np, w);
  }
}
