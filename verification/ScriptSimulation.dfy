/** The line machine, run over the lines of a structured script, does exactly what `Walk`
    says: it ends with the same state and its stacks restored, or runs on for ever. */
module ScriptSimulation {
  import opened Wrappers
  import opened NshParser
  import opened NshScript
  import opened ScriptSemantics
  import opened ScriptPositions

  // ----- single lines -----

  lemma StepCmd<W>(script: seq<Line>, host: Host<W>, c: Config<W>, mode: Mode, place: Place)
    requires !c.halted && c.pc < |script| && Ready(c.np, mode, place, Cmd(script[c.pc]))
    ensures mode != On ==> Step(script, host, c) == c.(pc := c.pc + 1, err := false)
    ensures mode == On ==>
              var (w, failed) := host.exec(script[c.pc], c.world, c.np.fail);
              Step(script, host, c) ==
              Config(c.pc + 1, c.np.(fail := failed), w, failed, failed && !host.ignore)
  {
  }

  lemma StepBreak<W>(script: seq<Line>, host: Host<W>, c: Config<W>, mode: Mode, place: Place)
    requires !c.halted && c.pc < |script| && script[c.pc] == [BreakW]
    requires Ready(c.np, mode, place, Break)
    ensures mode != On ==> Step(script, host, c) == c.(pc := c.pc + 1, err := false)
    ensures mode == On ==>
              Step(script, host, c) ==
              Config(c.pc + 1, After(c.np, On, if place == InLoop then LoopOff else On, false), c.world, false, false)
  {
  }

  /** The entry an if line leaves behind. */
  function IfHead(np: Parser, inverted: bool, failed: bool): IfEntry {
    IfEntry(IfIf, !np.CmdEnabled(), np.CmdEnabled() && inverted != failed, inverted)
  }

  lemma IfLineStage(np: Parser, inverted: bool, cond: Line)
    requires Plain(cond) && np.IfState() != IfIf && np.ifs.Height() + 1 < np.depth
    ensures IfStage(np, IfLine(inverted, cond)) ==
            Stage(np.(ifs := Push(IfEntry(IfIf, !np.CmdEnabled(), false, inverted), np.ifs)), cond, None)
  {
    var line := IfLine(inverted, cond);
    assert if inverted then line[2..] == cond else line[1..] == cond;
  }

  lemma StepIf<W>(script: seq<Line>, host: Host<W>, c: Config<W>, mode: Mode, inverted: bool, cond: Line)
    requires !c.halted && LineAt(script, c.pc, IfLine(inverted, cond))
    requires ModeOf(c.np) == Some(mode) && Plain(cond) && Room(c.np.ifs, c.np.depth) >= 1
    ensures var (w, failed) := host.exec(cond, c.world, c.np.fail);
            Step(script, host, c) ==
            Config(c.pc + 1,
                   c.np.(ifs := Push(IfHead(c.np, inverted, failed), c.np.ifs),
                         fail := c.np.fail && mode != On),
                   if mode == On then w else c.world, false, false)
  {
    var line := script[c.pc];
    assert LoopStage(c.np, line, c.pc, host.tells) == Stage(c.np, line, None);
    IfLineStage(c.np, inverted, cond);
  }

  lemma StepThen<W>(script: seq<Line>, host: Host<W>, c: Config<W>)
    requires !c.halted && c.pc < |script| && script[c.pc] == [ThenW]
    requires c.np.ifs.Push? && c.np.ifs.top.state == IfIf && !c.np.AwaitsDo()
    ensures Step(script, host, c) ==
            c.(pc := c.pc + 1, np := c.np.(ifs := Push(c.np.ifs.top.(state := IfThen), c.np.ifs.below)), err := false)
  {
  }

  lemma StepElse<W>(script: seq<Line>, host: Host<W>, c: Config<W>)
    requires !c.halted && c.pc < |script| && script[c.pc] == [ElseW]
    requires c.np.ifs.Push? && c.np.ifs.top.state == IfThen && !c.np.AwaitsDo()
    ensures Step(script, host, c) ==
            c.(pc := c.pc + 1, np := c.np.(ifs := Push(c.np.ifs.top.(state := IfElse), c.np.ifs.below)), err := false)
  {
  }

  lemma StepFi<W>(script: seq<Line>, host: Host<W>, c: Config<W>)
    requires !c.halted && c.pc < |script| && script[c.pc] == [FiW]
    requires c.np.ifs.Push? && c.np.ifs.top.state in {IfThen, IfElse} && !c.np.AwaitsDo()
    ensures Step(script, host, c) == c.(pc := c.pc + 1, np := c.np.(ifs := c.np.ifs.below), err := false)
  {
  }

  /** The entry a while or until line leaves behind. */
  function LoopHead(np: Parser, mode: Mode, until: bool, failed: bool, pc: nat): LoopEntry {
    LoopEntry(if until then LoopUntil else LoopWhile, mode != IfOff && failed == until, np.ifs.Height(), pc)
  }

  lemma LoopLineStage(np: Parser, until: bool, cond: Line, pc: nat)
    requires ModeOf(np).Some? && Plain(cond) && Room(np.loops, np.depth) >= 1
    ensures var state := if until then LoopUntil else LoopWhile;
            LoopStage(np, LoopLine(until, cond), pc, true) ==
            Stage(np.(loops := Push(LoopEntry(state, np.CmdEnabled(), np.ifs.Height(), pc), np.loops)), cond, None)
  {
    assert LoopLine(until, cond)[1..] == cond;
  }

  lemma StepLoop<W>(script: seq<Line>, host: Host<W>, c: Config<W>, mode: Mode, until: bool, cond: Line)
    requires !c.halted && LineAt(script, c.pc, LoopLine(until, cond)) && host.tells
    requires ModeOf(c.np) == Some(mode) && Plain(cond) && Room(c.np.loops, c.np.depth) >= 1
    ensures var (w, failed) := host.exec(cond, c.world, c.np.fail);
            Step(script, host, c) ==
            Config(c.pc + 1,
                   c.np.(loops := Push(LoopHead(c.np, mode, until, failed, c.pc), c.np.loops),
                         fail := c.np.fail && mode == IfOff),
                   if mode == IfOff then c.world else w, false, false)
  {
    hide LoopStage;
    LoopLineStage(c.np, until, cond, c.pc);
  }

  lemma StepDo<W>(script: seq<Line>, host: Host<W>, c: Config<W>)
    requires !c.halted && c.pc < |script| && script[c.pc] == [DoW] && c.np.AwaitsDo() && c.np.IfState() != IfIf
    ensures Step(script, host, c) ==
            c.(pc := c.pc + 1, np := c.np.(loops := Push(c.np.loops.top.(state := LoopDo), c.np.loops.below)),
               err := false)
  {
  }

  lemma StepDone<W>(script: seq<Line>, host: Host<W>, c: Config<W>)
    requires !c.halted && c.pc < |script| && script[c.pc] == [DoneW] && host.seeks
    requires c.np.loops.Push? && c.np.loops.top.state == LoopDo
    ensures Step(script, host, c) ==
            c.(pc := if c.np.loops.top.enable then c.np.loops.top.top else c.pc + 1,
               np := c.np.(loops := c.np.loops.below), err := false)
  {
  }

  // ----- whole blocks -----
  //
  // A run that started in `c0` has reached `c` after `m` turns; each lemma follows it over
  // one piece of code and returns the turn and the configuration it comes to.

  /** One more turn. */
  lemma Extend<W>(script: seq<Line>, host: Host<W>, c0: Config<W>, m: nat, c: Config<W>)
    requires Run(m, script, host, c0) == c
    ensures Run(m + 1, script, host, c0) == Step(script, host, c)
  {
    hide Step;
    RunAdd(m, 1, script, host, c0);
    RunUnfold(0, script, host, c);
  }

  lemma AfterReady(np: Parser, mode: Mode, mode': Mode, place: Place, fail: bool, code: Code)
    requires Ready(np, mode, place, code)
    requires mode' == mode || (mode == On && mode' == LoopOff && place == InLoop)
    ensures Ready(After(np, mode, mode', fail), mode', place, code)
  {
    ShapedOff(mode, mode', code, place, Room(np.ifs, np.depth), Room(np.loops, np.depth));
  }

  lemma {:induction false} LoopKeepsMode<W>(fuel: nat, mode: Mode, until: bool, cond: Line, body: Code, place: Place,
                                            host: Host<W>, st: State<W>)
    ensures var r := Walk(fuel, mode, Loop(until, cond, body), place, host, st); r.Past? ==> r.mode == mode
    decreases fuel
  {
    if mode != IfOff && fuel > 0 {
      var (w, failed) := host.exec(cond, st.world, st.fail);
      var r := Walk(fuel - 1, if failed == until then On else LoopOff, body, InLoop, host, State(w, false, false));
      if r.Past? && r.mode == On {
        LoopKeepsMode(fuel - 1, mode, until, cond, body, place, host, r.st.(err := false));
      }
    }
  }

  /** A walk that starts enabled in a loop body ends disabled exactly if it meets a break. */
  lemma {:induction false} WalkBreaks<W>(fuel: nat, code: Code, host: Host<W>, st: State<W>)
    ensures var r := Walk(fuel, On, code, InLoop, host, st); r.Past? ==> (r.mode == LoopOff <==> Breaks(code))
    decreases code
  {
    match code
    case Seq(a, b) =>
      WalkBreaks(fuel, a, host, st);
      var r := Walk(fuel, On, a, InLoop, host, st);
      if r.Past? && r.mode == On {
        WalkBreaks(fuel, b, host, r.st);
      }
    case Loop(until, cond, body) => LoopKeepsMode(fuel, On, until, cond, body, InLoop, host, st);
    case _ =>
  }

  lemma FirstReady(np: Parser, mode: Mode, a: Code, b: Code, place: Place)
    requires Ready(np, mode, place, Seq(a, b))
    ensures Ready(np, mode, place, a)
  {
  }

  /** After the first of two pieces of code, the second can be met. */
  lemma SecondReady<W>(fuel: nat, mode: Mode, a: Code, b: Code, place: Place, host: Host<W>, st: State<W>, np: Parser,
                       r: Passage<W>)
    requires Ready(np, mode, place, Seq(a, b)) && r == Walk(fuel, mode, a, place, host, st) && r.Past?
    ensures Ready(After(np, mode, r.mode, r.st.fail), r.mode, place, b)
  {
    var ifs, loops := Room(np.ifs, np.depth), Room(np.loops, np.depth);
    if mode == On && place == InLoop {
      WalkBreaks(fuel, a, host, st);
    }
    assert r.mode == ModeAfter(mode, a, place);
    assert Shaped(r.mode, b, place, ifs, loops);
    AfterReady(np, mode, r.mode, place, r.st.fail, Skip);
  }

  lemma {:induction false} Simulate<W>(fuel: nat, mode: Mode, code: Code, place: Place, script: seq<Line>,
                                       host: Host<W>, c0: Config<W>, m: nat, c: Config<W>, r: Passage<W>)
    returns (n: nat, end: Config<W>)
    requires host.tells && host.seeks && !c.halted && Run(m, script, host, c0) == c
    requires At(script, c.pc, code) && Ready(c.np, mode, place, code)
    requires r == Walk(fuel, mode, code, place, host, StateOf(c))
    ensures Run(n, script, host, c0) == end
    ensures Realises(m, c, n, end, fuel, mode, Size(code), r)
    decreases fuel, code, 4
  {
    hide Step;
    match code
    case Skip => n, end := m, c;
    case Seq(a, b) =>
      n, end := SimulateSeq(fuel, mode, a, b, place, script, host, c0, m, c, r);
    case Cmd(words) =>
      StepCmd(script, host, c, mode, place);
      Extend(script, host, c0, m, c);
      n, end := m + 1, Step(script, host, c);
    case Break =>
      StepBreak(script, host, c, mode, place);
      Extend(script, host, c0, m, c);
      n, end := m + 1, Step(script, host, c);
    case If(inverted, cond, thn, els) =>
      n, end := SimulateIf(fuel, mode, code, place, script, host, c0, m, c, r);
    case Loop(until, cond, body) =>
      n, end := SimulateLoop(fuel, mode, code, place, script, host, c0, m, c, r);
  }

  lemma WalkSeq<W>(fuel: nat, mode: Mode, a: Code, b: Code, place: Place, host: Host<W>, st: State<W>)
    ensures var r, r1 := Walk(fuel, mode, Seq(a, b), place, host, st), Walk(fuel, mode, a, place, host, st);
            if r1.Past? then
              && r == Walk(fuel, r1.mode, b, place, host, r1.st)
              && (mode != On ==> r1.mode == mode) && (r.Past? && r1.mode != On ==> r.mode == r1.mode)
            else r == r1
  {
  }

  lemma PastIs<W>(m: nat, c: Config<W>, n: nat, end: Config<W>, fuel: nat, mode: Mode, len: nat, r: Passage<W>)
    requires r.Past? && Realises(m, c, n, end, fuel, mode, len, r)
    ensures n >= m && end == Config(c.pc + len, After(c.np, mode, r.mode, r.st.fail), r.st.world, r.st.err, false)
  {
  }

  lemma NotPast<W>(m: nat, c: Config<W>, k: nat, c1: Config<W>, n: nat, end: Config<W>, fuel: nat, fuel1: nat,
                   mode: Mode, mode1: Mode, len: nat, len1: nat, r: Passage<W>)
    requires m + fuel <= k + fuel1 && !r.Past? && Realises(k, c1, n, end, fuel1, mode1, len1, r)
    ensures Realises(m, c, n, end, fuel, mode, len, r)
  {
  }

  /** Two passages, one after the other. */
  lemma Joined<W>(m: nat, c: Config<W>, k: nat, c1: Config<W>, n: nat, end: Config<W>, fuel: nat, mode: Mode,
                  len1: nat, len2: nat, r1: Passage<W>, r: Passage<W>)
    requires r1.Past? && (mode != On ==> r1.mode == mode) && k >= m
    requires c1 == Config(c.pc + len1, After(c.np, mode, r1.mode, r1.st.fail), r1.st.world, r1.st.err, false)
    requires r.Past? && r1.mode != On ==> r.mode == r1.mode
    requires Realises(k, c1, n, end, fuel, r1.mode, len2, r)
    ensures Realises(m, c, n, end, fuel, mode, len1 + len2, r)
  {
  }

  lemma {:induction false} SimulateSeq<W>(fuel: nat, mode: Mode, a: Code, b: Code, place: Place, script: seq<Line>,
                                          host: Host<W>, c0: Config<W>, m: nat, c: Config<W>, r: Passage<W>)
    returns (n: nat, end: Config<W>)
    requires host.tells && host.seeks && !c.halted && Run(m, script, host, c0) == c
    requires At(script, c.pc, Seq(a, b)) && Ready(c.np, mode, place, Seq(a, b))
    requires r == Walk(fuel, mode, Seq(a, b), place, host, StateOf(c))
    ensures Run(n, script, host, c0) == end
    ensures Realises(m, c, n, end, fuel, mode, Size(a) + Size(b), r)
    decreases fuel, Seq(a, b), 3
  {
    hide Step, Run, Ready, Realises, Walk, At, Size;
    AtSeq(script, c.pc, a, b);
    var r1 := Walk(fuel, mode, a, place, host, StateOf(c));
    WalkSeq(fuel, mode, a, b, place, host, StateOf(c));
    FirstReady(c.np, mode, a, b, place);
    n, end := Simulate(fuel, mode, a, place, script, host, c0, m, c, r1);
    if r1.Past? {
      SecondReady(fuel, mode, a, b, place, host, StateOf(c), c.np, r1);
      PastIs(m, c, n, end, fuel, mode, Size(a), r1);
      var k, c1 := n, end;
      n, end := Simulate(fuel, r1.mode, b, place, script, host, c0, k, c1, r);
      Joined(m, c, k, c1, n, end, fuel, mode, Size(a), Size(b), r1, r);
    } else {
      NotPast(m, c, m, c, n, end, fuel, fuel, mode, mode, Size(a) + Size(b), Size(a), r);
    }
  }

  // ----- if-then[-else]-fi -----

  function BranchMode(mode: Mode, taken: bool): Mode {
    if mode == On && taken then On else IfOff
  }

  /** The parser inside a branch: one more entry, in the given state. */
  function InBranch(np: Parser, inverted: bool, failed: bool, state: IfState): Parser {
    np.(ifs := Push(IfHead(np, inverted, failed).(state := state), np.ifs))
  }

  /** Where a branch stands. */
  lemma BranchPlace(np: Parser, mode: Mode, inverted: bool, failed: bool, state: IfState, fail: bool)
    requires ModeOf(np) == Some(mode) && state in {IfThen, IfElse}
    ensures var np' := InBranch(np, inverted, failed, state).(fail := fail);
            && ModeOf(np') == Some(BranchMode(mode, (failed == inverted) == (state == IfThen)))
            && PlaceOf(np') == UnderIf(PlaceOf(np)) && Room(np'.loops, np'.depth) == Room(np.loops, np.depth)
            && (Room(np.ifs, np.depth) >= 1 ==> Room(np'.ifs, np'.depth) == Room(np.ifs, np.depth) - 1)
  {
  }

  lemma ThenReady(np: Parser, mode: Mode, place: Place, inverted: bool, cond: Line, thn: Code, els: Option<Code>,
                  failed: bool, fail: bool)
    requires Ready(np, mode, place, If(inverted, cond, thn, els))
    ensures Ready(InBranch(np, inverted, failed, IfThen).(fail := fail), BranchMode(mode, failed == inverted),
                  UnderIf(place), thn)
  {
    var ifs, loops := Room(np.ifs, np.depth), Room(np.loops, np.depth);
    ShapedOff(if mode == On then On else IfOff, BranchMode(mode, failed == inverted), thn, UnderIf(place), ifs - 1,
              loops);
    BranchPlace(np, mode, inverted, failed, IfThen, fail);
  }

  lemma ElseReady(np: Parser, mode: Mode, place: Place, inverted: bool, cond: Line, thn: Code, els: Code,
                  failed: bool, fail: bool)
    requires Ready(np, mode, place, If(inverted, cond, thn, Some(els)))
    ensures Ready(InBranch(np, inverted, failed, IfElse).(fail := fail), BranchMode(mode, failed != inverted),
                  UnderIf(place), els)
  {
    var ifs, loops := Room(np.ifs, np.depth), Room(np.loops, np.depth);
    ShapedOff(if mode == On then On else IfOff, BranchMode(mode, failed != inverted), els, UnderIf(place), ifs - 1,
              loops);
    BranchPlace(np, mode, inverted, failed, IfElse, fail);
  }

  /** The passage over an if, given the passage over its else part. */
  function FromElse<W>(mode: Mode, r: Passage<W>): Passage<W> {
    if r.Past? then Past(r.st.(err := false), mode) else r
  }

  /** The state a condition leaves, and its status. */
  function Tested<W>(host: Host<W>, cond: Line, runs: bool, st: State<W>): (State<W>, bool) {
    var (w, failed) := host.exec(cond, st.world, st.fail);
    (if runs then State(w, false, false) else st.(err := false), failed)
  }

  /** The passage over the else part, if any. */
  function Otherwise<W>(fuel: nat, mode: Mode, els: Option<Code>, place: Place, host: Host<W>,
                        st: State<W>): Passage<W> {
    match els
    case None => Past(st, mode)
    case Some(e) => Walk(fuel, mode, e, place, host, st.(err := false))
  }

  /** What `Walk` says of an if, told branch by branch as the lines are met. */
  lemma WalkIf<W>(fuel: nat, mode: Mode, inverted: bool, cond: Line, thn: Code, els: Option<Code>, place: Place,
                  host: Host<W>, st: State<W>)
    ensures var code := If(inverted, cond, thn, els);
            var (st1, failed) := Tested(host, cond, mode == On, st);
            var r := Walk(fuel, mode, code, place, host, st);
            match Walk(fuel, BranchMode(mode, failed == inverted), thn, UnderIf(place), host, st1)
            case Past(st2, mode2) =>
              && r == FromElse(mode, Otherwise(fuel, BranchMode(mode, failed != inverted), els, UnderIf(place), host,
                                               st2))
              && mode2 == BranchMode(mode, failed == inverted)
            case other => r == other
  {
  }

  lemma ReadyHead(np: Parser, mode: Mode, place: Place, code: Code)
    requires Ready(np, mode, place, code) && (code.If? || code.Loop?)
    ensures ModeOf(np) == Some(mode) && Plain(code.cond)
    ensures code.If? ==> Room(np.ifs, np.depth) >= 1
    ensures code.Loop? ==> Room(np.loops, np.depth) >= 1
  {
  }

  /** The head of an if: its condition runs when processing is enabled. */
  lemma HeadIf<W>(script: seq<Line>, host: Host<W>, c0: Config<W>, m: nat, c: Config<W>, mode: Mode,
                  inverted: bool, cond: Line, st: State<W>, failed: bool)
    requires !c.halted && Run(m, script, host, c0) == c
    requires LineAt(script, c.pc, IfLine(inverted, cond)) && LineAt(script, c.pc + 1, [ThenW])
    requires ModeOf(c.np) == Some(mode) && Plain(cond) && Room(c.np.ifs, c.np.depth) >= 1
    requires (st, failed) == Tested(host, cond, mode == On, StateOf(c))
    ensures Run(m + 2, script, host, c0) ==
            Config(c.pc + 2, InBranch(c.np, inverted, failed, IfThen).(fail := st.fail), st.world, false, false)
  {
    hide Step;
    var c1 := Config(c.pc + 1, c.np.(ifs := Push(IfHead(c.np, inverted, failed), c.np.ifs), fail := st.fail),
                     st.world, false, false);
    assert Run(m + 1, script, host, c0) == c1 by {
      StepIf(script, host, c, mode, inverted, cond);
      Extend(script, host, c0, m, c);
    }
    StepThen(script, host, c1);
    Extend(script, host, c0, m + 1, c1);
  }

  /** The rest of an if, from the end of its then part on. */
  ghost predicate EndsIf<W>(m: nat, n: nat, end: Config<W>, base: Parser, pc: nat, fuel: nat, r: Passage<W>) {
    match r
    case Endless => n >= m + fuel && !end.halted && !end.np.lost
    case Stop(st) => end.halted && StateOf(end) == st && !end.np.lost
    case Past(st, _) => n >= m && end == Config(pc, base.(fail := st.fail), st.world, false, false)
  }

  lemma OpenElse<W>(script: seq<Line>, host: Host<W>, c0: Config<W>, m: nat, c: Config<W>, base: Parser,
                    inverted: bool, failed: bool)
    requires !c.halted && LineAt(script, c.pc, [ElseW]) && !base.AwaitsDo() && Run(m, script, host, c0) == c
    requires c.np == InBranch(base, inverted, failed, IfThen).(fail := c.np.fail)
    ensures Run(m + 1, script, host, c0) ==
            Config(c.pc + 1, InBranch(base, inverted, failed, IfElse).(fail := c.np.fail), c.world, false, false)
  {
    hide Step;
    StepElse(script, host, c);
    Extend(script, host, c0, m, c);
  }

  lemma CloseIf<W>(script: seq<Line>, host: Host<W>, c0: Config<W>, m: nat, c: Config<W>, base: Parser,
                   inverted: bool, failed: bool, state: IfState)
    requires !c.halted && LineAt(script, c.pc, [FiW]) && !base.AwaitsDo() && Run(m, script, host, c0) == c
    requires state in {IfThen, IfElse} && c.np == InBranch(base, inverted, failed, state).(fail := c.np.fail)
    ensures Run(m + 1, script, host, c0) == Config(c.pc + 1, base.(fail := c.np.fail), c.world, false, false)
  {
    hide Step;
    StepFi(script, host, c);
    Extend(script, host, c0, m, c);
  }

  lemma {:induction false} SimulateElse<W>(fuel: nat, mode: Mode, e: Code, place: Place, script: seq<Line>,
                                           host: Host<W>, c0: Config<W>, m: nat, c: Config<W>,
                                           base: Parser, inverted: bool, failed: bool, r: Passage<W>)
    returns (n: nat, end: Config<W>)
    requires host.tells && host.seeks && !c.halted && !base.AwaitsDo() && Run(m, script, host, c0) == c
    requires LineAt(script, c.pc, [ElseW]) && At(script, c.pc + 1, e) && LineAt(script, c.pc + 1 + Size(e), [FiW])
    requires c.np == InBranch(base, inverted, failed, IfThen).(fail := c.np.fail)
    requires Ready(InBranch(base, inverted, failed, IfElse).(fail := c.np.fail), mode, place, e) && place != InLoop
    requires r == Walk(fuel, mode, e, place, host, StateOf(c).(err := false))
    ensures Run(n, script, host, c0) == end
    ensures EndsIf(m, n, end, base, c.pc + 2 + Size(e), fuel, r)
    decreases fuel, e, 5
  {
    hide Step;
    OpenElse(script, host, c0, m, c, base, inverted, failed);
    var c1 := Config(c.pc + 1, InBranch(base, inverted, failed, IfElse).(fail := c.np.fail), c.world, false, false);
    n, end := Simulate(fuel, mode, e, place, script, host, c0, m + 1, c1, r);
    if r.Past? {
      CloseIf(script, host, c0, n, end, base, inverted, failed, IfElse);
      n, end := n + 1, Config(end.pc + 1, base.(fail := end.np.fail), end.world, false, false);
    }
  }

  lemma {:induction false} FinishIf<W>(fuel: nat, mode: Mode, code: Code, place: Place, script: seq<Line>,
                                       host: Host<W>, c0: Config<W>, c: Config<W>, m: nat, c2: Config<W>,
                                       failed: bool, r: Passage<W>)
    returns (n: nat, end: Config<W>)
    requires host.tells && host.seeks && code.If? && !c2.halted && Run(m, script, host, c0) == c2
    requires At(script, c.pc, code) && Ready(c.np, mode, place, code)
    requires c2.pc == c.pc + 2 + Size(code.thn)
    requires c2.np == InBranch(c.np, code.inverted, failed, IfThen).(fail := c2.np.fail)
    requires r == Otherwise(fuel, BranchMode(mode, failed != code.inverted), code.els, UnderIf(place), host,
                            StateOf(c2))
    ensures Run(n, script, host, c0) == end
    ensures EndsIf(m, n, end, c.np, c.pc + Size(code), fuel, r)
    decreases fuel, code, 1
  {
    hide Step, Run, Walk;
    var If(inverted, cond, thn, els) := code;
    match els
    case None =>
      CloseIf(script, host, c0, m, c2, c.np, inverted, failed, IfThen);
      n, end := m + 1, Config(c2.pc + 1, c.np.(fail := c2.np.fail), c2.world, false, false);
    case Some(e) =>
      ElseReady(c.np, mode, place, inverted, cond, thn, e, failed, c2.np.fail);
      n, end := SimulateElse(fuel, BranchMode(mode, failed != inverted), e, UnderIf(place), script, host, c0, m, c2,
                             c.np, inverted, failed, r);
  }

  lemma IfRealised<W>(m: nat, c: Config<W>, k: nat, n: nat, end: Config<W>, fuel: nat, mode: Mode, len: nat,
                      r2: Passage<W>, r: Passage<W>)
    requires k >= m && EndsIf(k, n, end, c.np, c.pc + len, fuel, r2)
    requires r == FromElse(mode, r2)
    ensures Realises(m, c, n, end, fuel, mode, len, r)
  {
  }

  /** From the end of the then part on. */
  lemma {:induction false} RestOfIf<W>(fuel: nat, mode: Mode, code: Code, place: Place, script: seq<Line>,
                                       host: Host<W>, c0: Config<W>, c: Config<W>, m: nat, k: nat, st: State<W>,
                                       failed: bool, r: Passage<W>)
    returns (n: nat, end: Config<W>)
    requires host.tells && host.seeks && code.If? && m <= k
    requires Run(k, script, host, c0) ==
             Config(c.pc + 2 + Size(code.thn), InBranch(c.np, code.inverted, failed, IfThen).(fail := st.fail),
                    st.world, st.err, false)
    requires At(script, c.pc, code) && Ready(c.np, mode, place, code)
    requires r == FromElse(mode, Otherwise(fuel, BranchMode(mode, failed != code.inverted), code.els, UnderIf(place),
                                           host, st))
    ensures Run(n, script, host, c0) == end
    ensures Realises(m, c, n, end, fuel, mode, Size(code), r)
    decreases fuel, code, 2
  {
    hide Step, Run, Ready, Realises, EndsIf, Walk;
    var r2 := Otherwise(fuel, BranchMode(mode, failed != code.inverted), code.els, UnderIf(place), host, st);
    var c2 := Run(k, script, host, c0);
    n, end := FinishIf(fuel, mode, code, place, script, host, c0, c, k, c2, failed, r2);
    IfRealised(m, c, k, n, end, fuel, mode, Size(code), r2, r);
  }

  lemma {:induction false} SimulateIf<W>(fuel: nat, mode: Mode, code: Code, place: Place, script: seq<Line>,
                                         host: Host<W>, c0: Config<W>, m: nat, c: Config<W>, r: Passage<W>)
    returns (n: nat, end: Config<W>)
    requires host.tells && host.seeks && !c.halted && code.If? && Run(m, script, host, c0) == c
    requires At(script, c.pc, code) && Ready(c.np, mode, place, code)
    requires r == Walk(fuel, mode, code, place, host, StateOf(c))
    ensures Run(n, script, host, c0) == end
    ensures Realises(m, c, n, end, fuel, mode, Size(code), r)
    decreases fuel, code, 3
  {
    hide Step, Run, Ready, Realises, Walk, FromElse;
    ReadyHead(c.np, mode, place, code);
    var (st, failed) := Tested(host, code.cond, mode == On, StateOf(c));
    HeadIf(script, host, c0, m, c, mode, code.inverted, code.cond, st, failed);
    ThenReady(c.np, mode, place, code.inverted, code.cond, code.thn, code.els, failed, st.fail);
    var c1 := Config(c.pc + 2, InBranch(c.np, code.inverted, failed, IfThen).(fail := st.fail), st.world, false, false);
    var mode1 := BranchMode(mode, failed == code.inverted);
    var r1 := Walk(fuel, mode1, code.thn, UnderIf(place), host, st);
    n, end := Simulate(fuel, mode1, code.thn, UnderIf(place), script, host, c0, m + 2, c1, r1);
    WalkIf(fuel, mode, code.inverted, code.cond, code.thn, code.els, place, host, StateOf(c));
    if r1.Past? {
      PastIs(m + 2, c1, n, end, fuel, mode1, Size(code.thn), r1);
      n, end := RestOfIf(fuel, mode, code, place, script, host, c0, c, m, n, r1.st, failed, r);
    } else {
      NotPast(m, c, m + 2, c1, n, end, fuel, fuel, mode, mode1, Size(code), Size(code.thn), r);
    }
  }

  // ----- while and until -----

  function BodyMode(mode: Mode, go: bool): Mode {
    if mode == IfOff then IfOff else if go then On else LoopOff
  }

  /** The parser inside a loop body: one more entry, which remembers the line of the loop. */
  function InBody(np: Parser, enable: bool, pc: nat): Parser {
    np.(loops := Push(LoopEntry(LoopDo, enable, np.ifs.Height(), pc), np.loops))
  }

  lemma BodyReady(np: Parser, mode: Mode, place: Place, until: bool, cond: Line, body: Code, go: bool, pc: nat,
                  fail: bool)
    requires Ready(np, mode, place, Loop(until, cond, body))
    ensures Ready(InBody(np, mode != IfOff && go, pc).(fail := fail), BodyMode(mode, go), InLoop, body)
  {
    ShapedOff(if mode == IfOff then IfOff else On, BodyMode(mode, go), body, InLoop, Room(np.ifs, np.depth),
              Room(np.loops, np.depth) - 1);
  }

  /** The passage over a loop, given the passage over its body. */
  function FromBody<W>(fuel: nat, mode: Mode, code: Code, place: Place, host: Host<W>, r: Passage<W>): Passage<W> {
    match r
    case Past(st, mode2) =>
      if mode2 == On then Walk(if fuel > 0 then fuel - 1 else 0, mode, code, place, host, st.(err := false))
      else Past(st.(err := false), mode)
    case other => other
  }

  function BodyFuel(fuel: nat, mode: Mode): nat
    requires mode != IfOff ==> fuel > 0
  {
    if mode == IfOff then fuel else fuel - 1
  }

  /** What `Walk` says of a loop, told as its lines are met. */
  lemma WalkLoop<W>(fuel: nat, mode: Mode, until: bool, cond: Line, body: Code, place: Place, host: Host<W>,
                    st: State<W>)
    requires mode != IfOff ==> fuel > 0
    ensures var code := Loop(until, cond, body);
            var (st1, failed) := Tested(host, cond, mode != IfOff, st);
            Walk(fuel, mode, code, place, host, st) ==
            FromBody(fuel, mode, code, place, host,
                     Walk(BodyFuel(fuel, mode), BodyMode(mode, failed == until), body, InLoop, host, st1))
  {
  }

  /** The head of a loop: its condition runs unless an `if` is disabled. */
  lemma HeadLoop<W>(script: seq<Line>, host: Host<W>, c0: Config<W>, m: nat, c: Config<W>, mode: Mode,
                    until: bool, cond: Line, st: State<W>, failed: bool)
    requires !c.halted && Run(m, script, host, c0) == c && host.tells
    requires LineAt(script, c.pc, LoopLine(until, cond)) && LineAt(script, c.pc + 1, [DoW])
    requires ModeOf(c.np) == Some(mode) && Plain(cond) && Room(c.np.loops, c.np.depth) >= 1
    requires (st, failed) == Tested(host, cond, mode != IfOff, StateOf(c))
    ensures Run(m + 2, script, host, c0) ==
            Config(c.pc + 2, InBody(c.np, mode != IfOff && failed == until, c.pc).(fail := st.fail), st.world, false,
                   false)
  {
    hide Step;
    var c1 := Config(c.pc + 1, c.np.(loops := Push(LoopHead(c.np, mode, until, failed, c.pc), c.np.loops),
                                     fail := st.fail),
                     st.world, false, false);
    assert Run(m + 1, script, host, c0) == c1 by {
      StepLoop(script, host, c, mode, until, cond);
      Extend(script, host, c0, m, c);
    }
    StepDo(script, host, c1);
    Extend(script, host, c0, m + 1, c1);
  }

  lemma CloseLoop<W>(script: seq<Line>, host: Host<W>, c0: Config<W>, m: nat, c: Config<W>, base: Parser,
                     enable: bool, pc: nat)
    requires !c.halted && LineAt(script, c.pc, [DoneW]) && host.seeks && Run(m, script, host, c0) == c
    requires c.np == InBody(base, enable, pc).(fail := c.np.fail)
    ensures Run(m + 1, script, host, c0) ==
            Config(if enable then pc else c.pc + 1, base.(fail := c.np.fail), c.world, false, false)
  {
    hide Step;
    StepDone(script, host, c);
    Extend(script, host, c0, m, c);
  }

  /** From done on: back to the top of the loop, or past its end. */
  lemma {:induction false} FinishLoop<W>(fuel: nat, mode: Mode, code: Code, place: Place, script: seq<Line>,
                                         host: Host<W>, c0: Config<W>, c: Config<W>, m: nat, k: nat, c2: Config<W>,
                                         mode2: Mode, r: Passage<W>)
    returns (n: nat, end: Config<W>)
    requires host.tells && host.seeks && !c2.halted && Run(k, script, host, c0) == c2 && m <= k
    requires code.Loop? && At(script, c.pc, code) && Ready(c.np, mode, place, code) && (mode != IfOff ==> fuel > 0)
    requires c2.pc == c.pc + 2 + Size(code.body) && (mode == IfOff ==> mode2 != On)
    requires c2.np == InBody(c.np, mode2 == On, c.pc).(fail := c2.np.fail)
    requires r == if mode2 == On then Walk(fuel - 1, mode, code, place, host, StateOf(c2).(err := false))
                  else Past(StateOf(c2).(err := false), mode)
    ensures Run(n, script, host, c0) == end
    ensures Realises(m, c, n, end, fuel, mode, Size(code), r)
    decreases fuel, code, 1
  {
    hide Step;
    var next := if mode2 == On then c.pc else c2.pc + 1;
    CloseLoop(script, host, c0, k, c2, c.np, mode2 == On, c.pc);
    n, end := k + 1, Config(next, c.np.(fail := c2.np.fail), c2.world, false, false);
    if mode2 == On {
      AfterReady(c.np, mode, mode, place, c2.np.fail, code);
      n, end := Simulate(fuel - 1, mode, code, place, script, host, c0, n, end, r);
    }
  }

  /** The parser at the end of a body: only the enable bit tells whether a break was met. */
  lemma BodyLeft(np: Parser, mode: Mode, go: bool, pc: nat, fail: bool, mode2: Mode, fail': bool)
    requires mode2 == BodyMode(mode, go) || (BodyMode(mode, go) == On && mode2 == LoopOff)
    ensures After(InBody(np, mode != IfOff && go, pc).(fail := fail), BodyMode(mode, go), mode2, fail') ==
            InBody(np, mode2 == On, pc).(fail := fail')
  {
  }

  /** From the body of a loop on. */
  lemma {:induction false} LoopBody<W>(fuel: nat, mode: Mode, code: Code, place: Place, script: seq<Line>,
                                       host: Host<W>, c0: Config<W>, m: nat, c: Config<W>, st: State<W>,
                                       go: bool, r: Passage<W>)
    returns (n: nat, end: Config<W>)
    requires host.tells && host.seeks && code.Loop? && At(script, c.pc, code) && Ready(c.np, mode, place, code)
    requires (mode != IfOff ==> fuel > 0) && Run(m + 2, script, host, c0) ==
             Config(c.pc + 2, InBody(c.np, mode != IfOff && go, c.pc).(fail := st.fail), st.world, false, false)
    requires !st.err && r == FromBody(fuel, mode, code, place, host,
                                      Walk(BodyFuel(fuel, mode), BodyMode(mode, go), code.body, InLoop, host, st))
    ensures Run(n, script, host, c0) == end
    ensures Realises(m, c, n, end, fuel, mode, Size(code), r)
    decreases fuel, code, 2
  {
    hide Step, Run, Ready, Realises, Walk, Size;
    BodyReady(c.np, mode, place, code.until, code.cond, code.body, go, c.pc, st.fail);
    var c1 := Run(m + 2, script, host, c0);
    var mode1, fuel1 := BodyMode(mode, go), BodyFuel(fuel, mode);
    var r1 := Walk(fuel1, mode1, code.body, InLoop, host, st);
    n, end := Simulate(fuel1, mode1, code.body, InLoop, script, host, c0, m + 2, c1, r1);
    if r1.Past? {
      PastIs(m + 2, c1, n, end, fuel1, mode1, Size(code.body), r1);
      BodyLeft(c.np, mode, go, c.pc, st.fail, r1.mode, r1.st.fail);
      n, end := FinishLoop(fuel, mode, code, place, script, host, c0, c, m, n, end, r1.mode, r);
    } else {
      NotPast(m, c, m + 2, c1, n, end, fuel, fuel1, mode, mode1, Size(code), Size(code.body), r);
    }
  }

  lemma NotLost(np: Parser)
    requires ModeOf(np).Some?
    ensures !np.lost
  {
  }

  lemma OutOfFuel<W>(mode: Mode, code: Code, place: Place, host: Host<W>, m: nat, c: Config<W>)
    requires code.Loop? && mode != IfOff && !c.halted && !c.np.lost
    ensures Realises(m, c, m, c, 0, mode, Size(code), Walk(0, mode, code, place, host, StateOf(c)))
  {
  }

  lemma {:induction false} SimulateLoop<W>(fuel: nat, mode: Mode, code: Code, place: Place, script: seq<Line>,
                                           host: Host<W>, c0: Config<W>, m: nat, c: Config<W>, r: Passage<W>)
    returns (n: nat, end: Config<W>)
    requires host.tells && host.seeks && !c.halted && code.Loop? && Run(m, script, host, c0) == c
    requires At(script, c.pc, code) && Ready(c.np, mode, place, code)
    requires r == Walk(fuel, mode, code, place, host, StateOf(c))
    ensures Run(n, script, host, c0) == end
    ensures Realises(m, c, n, end, fuel, mode, Size(code), r)
    decreases fuel, code, 3
  {
    hide Step, Run, Ready, Realises, Walk, FromBody;
    ReadyHead(c.np, mode, place, code);
    if fuel == 0 && mode != IfOff {
      n, end := m, c;
      NotLost(c.np);
      OutOfFuel(mode, code, place, host, m, c);
      return;
    }
    var (st, failed) := Tested(host, code.cond, mode != IfOff, StateOf(c));
    HeadLoop(script, host, c0, m, c, mode, code.until, code.cond, st, failed);
    WalkLoop(fuel, mode, code.until, code.cond, code.body, place, host, StateOf(c));
    n, end := LoopBody(fuel, mode, code, place, script, host, c0, m, c, st, failed == code.until, r);
  }
}
