/** The line machine and the documented meaning of scripts: where they agree. */
module ScriptTheorems {
  import opened Wrappers
  import opened NshParser
  import opened NshScript
  import opened ScriptSemantics
  import opened ScriptPositions
  import opened ScriptSimulation
  import NshSlots

  // ----- the documented meaning, construct by construct -----

  lemma SeqMeaning<W>(fuel: nat, a: Code, b: Code, place: Place, host: Host<W>, st: State<W>)
    ensures Intended(fuel, Seq(a, b), place, host, st) ==
            match Intended(fuel, a, place, host, st)
            case Done(st1, Next) => Intended(fuel, b, place, host, st1)
            case other => other
  {
  }

  function Closed<W>(branch: Outcome<W>): Outcome<W> {
    match branch
    case Done(st, sig) => if sig == Stopped then branch else Done(st.(err := false), sig)
    case Timeout => Timeout
  }

  /** The meaning of an if, by the meaning of the part that is taken. */
  lemma IfMeaning<W>(fuel: nat, inverted: bool, cond: Line, thn: Code, els: Option<Code>, place: Place, host: Host<W>,
                     st: State<W>, st1: State<W>, failed: bool)
    requires host.exec(cond, st.world, st.fail) == (st1.world, failed) && !st1.fail && !st1.err
    ensures Intended(fuel, If(inverted, cond, thn, els), place, host, st) ==
            Closed(if failed == inverted then Intended(fuel, thn, UnderIf(place), host, st1)
                   else match els
                     case None => Done(st1, Next)
                     case Some(e) => Intended(fuel, e, UnderIf(place), host, st1))
  {
  }

  lemma LoopMeaning<W>(fuel: nat, until: bool, cond: Line, body: Code, place: Place, host: Host<W>, st: State<W>,
                       st1: State<W>, failed: bool)
    requires fuel > 0 && host.exec(cond, st.world, st.fail) == (st1.world, failed) && !st1.fail && !st1.err
    ensures Intended(fuel, Loop(until, cond, body), place, host, st) ==
            if failed != until then Done(st1, Next)
            else match Intended(fuel - 1, body, InLoop, host, st1)
              case Timeout => Timeout
              case Done(st2, Stopped) => Done(st2, Stopped)
              case Done(st2, Broke) => Done(st2.(err := false), Next)
              case Done(st2, Next) => Intended(fuel - 1, Loop(until, cond, body), place, host, st2.(err := false))
  {
  }

  // ----- the shape on which the two agree -----

  /** A loop stands directly in this code, with no `if` around it. */
  predicate DirectLoop(code: Code) {
    match code
    case Seq(a, b) => DirectLoop(a) || DirectLoop(b)
    case Loop(_, _, _) => true
    case _ => false
  }

  /** Some loop that can be reached has another loop directly in its body. */
  predicate Nested(code: Code, place: Place) {
    match code
    case Seq(a, b) => Nested(a, place) || (!(place == InLoop && Breaks(a)) && Nested(b, place))
    case If(_, _, thn, els) =>
      Nested(thn, UnderIf(place)) || (match els case None => false case Some(e) => Nested(e, UnderIf(place)))
    case Loop(_, _, body) => DirectLoop(body) || Nested(body, InLoop)
    case _ => false
  }

  /** Passing over code without direct loops changes nothing. */
  lemma {:induction false} PassedOver<W>(fuel: nat, mode: Mode, code: Code, place: Place, host: Host<W>, st: State<W>)
    requires mode == IfOff || (mode == LoopOff && !DirectLoop(code))
    ensures var r := Walk(fuel, mode, code, place, host, st);
            r.Past? && r.mode == mode && (r.st == st || r.st == st.(err := false))
    decreases code
  {
    match code
    case Seq(a, b) =>
      PassedOver(fuel, mode, a, place, host, st);
      PassedOver(fuel, mode, b, place, host, Walk(fuel, mode, a, place, host, st).st);
    case _ =>
  }

  /** What the machine must do for an outcome. */
  function Expected<W>(outcome: Outcome<W>): Passage<W> {
    match outcome
    case Timeout => Endless
    case Done(st, Stopped) => Stop(st)
    case Done(st, Broke) => Past(st, LoopOff)
    case Done(st, Next) => Past(st, On)
  }

  /** Without nested loops the machine's way with a script is the documented one. */
  lemma {:induction false} WalkAsIntended<W>(fuel: nat, code: Code, place: Place, ifs: nat, loops: nat,
                                             host: Host<W>, st: State<W>)
    requires Shaped(On, code, place, ifs, loops) && !Nested(code, place) && (place == InLoop ==> !DirectLoop(code))
    ensures Walk(fuel, On, code, place, host, st) == Expected(Intended(fuel, code, place, host, st))
    ensures Intended(fuel, code, place, host, st).Done? && Intended(fuel, code, place, host, st).sig == Broke ==>
              place == InLoop && Breaks(code) && !Intended(fuel, code, place, host, st).st.err
    decreases fuel, code, 1
  {
    match code
    case Seq(a, b) => SeqAsIntended(fuel, a, b, place, ifs, loops, host, st);
    case If(_, _, _, _) => IfAsIntended(fuel, code, place, ifs, loops, host, st);
    case Loop(until, cond, body) =>
      LoopAsIntended(fuel, until, cond, body, place, ifs, loops, host, st);
    case _ =>
  }

  lemma {:induction false} IfAsIntended<W>(fuel: nat, code: Code, place: Place, ifs: nat, loops: nat, host: Host<W>,
                                           st: State<W>)
    requires code.If? && Shaped(On, code, place, ifs, loops) && !Nested(code, place)
    ensures Walk(fuel, On, code, place, host, st) == Expected(Intended(fuel, code, place, host, st))
    ensures var r := Intended(fuel, code, place, host, st); r.Done? ==> r.sig != Broke
    decreases fuel, code, 0
  {
    var (w, failed) := host.exec(code.cond, st.world, st.fail);
    if failed == code.inverted {
      WalkAsIntended(fuel, code.thn, UnderIf(place), ifs - 1, loops, host, State(w, false, false));
    } else if code.els.Some? {
      WalkAsIntended(fuel, code.els.value, UnderIf(place), ifs - 1, loops, host, State(w, false, false));
    }
  }

  lemma {:induction false} NoNextAfterBreak<W>(fuel: nat, code: Code, host: Host<W>, st: State<W>)
    requires Breaks(code)
    ensures Intended(fuel, code, InLoop, host, st).Done? ==> Intended(fuel, code, InLoop, host, st).sig != Next
    decreases code
  {
    match code
    case Seq(a, b) =>
      var r := Intended(fuel, a, InLoop, host, st);
      if Breaks(a) {
        NoNextAfterBreak(fuel, a, host, st);
      } else if r.Done? && r.sig == Next {
        NoNextAfterBreak(fuel, b, host, r.st);
      }
    case _ =>
  }

  lemma {:induction false} SeqAsIntended<W>(fuel: nat, a: Code, b: Code, place: Place, ifs: nat, loops: nat,
                                            host: Host<W>, st: State<W>)
    requires var code := Seq(a, b);
             Shaped(On, code, place, ifs, loops) && !Nested(code, place) && (place == InLoop ==> !DirectLoop(code))
    ensures Walk(fuel, On, Seq(a, b), place, host, st) == Expected(Intended(fuel, Seq(a, b), place, host, st))
    ensures var r := Intended(fuel, Seq(a, b), place, host, st);
            r.Done? && r.sig == Broke ==> place == InLoop && Breaks(Seq(a, b)) && !r.st.err
    decreases fuel, Seq(a, b), 0
  {
    hide Walk, Intended;
    WalkSeq(fuel, On, a, b, place, host, st);
    SeqMeaning(fuel, a, b, place, host, st);
    WalkAsIntended(fuel, a, place, ifs, loops, host, st);
    match Intended(fuel, a, place, host, st)
    case Done(st1, sig) =>
      if sig == Next {
        if place == InLoop && Breaks(a) {
          NoNextAfterBreak(fuel, a, host, st);
        }
        WalkAsIntended(fuel, b, place, ifs, loops, host, st1);
      } else if sig == Broke {
        PassedOver(fuel, LoopOff, b, place, host, st1);
      }
    case Timeout =>
  }

  lemma {:induction false} LoopAsIntended<W>(fuel: nat, until: bool, cond: Line, body: Code, place: Place, ifs: nat,
                                             loops: nat, host: Host<W>, st: State<W>)
    requires var code := Loop(until, cond, body); Shaped(On, code, place, ifs, loops) && !Nested(code, place)
    requires place != InLoop
    ensures var code := Loop(until, cond, body);
            Walk(fuel, On, code, place, host, st) == Expected(Intended(fuel, code, place, host, st))
    ensures var code := Loop(until, cond, body);
            Intended(fuel, code, place, host, st).Done? ==> Intended(fuel, code, place, host, st).sig != Broke
    decreases fuel, Loop(until, cond, body), 0
  {
    if fuel > 0 {
      var (w, failed) := host.exec(cond, st.world, st.fail);
      var st1 := State(w, false, false);
      if failed != until {
        PassedOver(fuel - 1, LoopOff, body, InLoop, host, st1);
      } else {
        WalkAsIntended(fuel - 1, body, InLoop, ifs, loops - 1, host, st1);
        match Intended(fuel - 1, body, InLoop, host, st1)
        case Done(st2, sig) =>
          if sig == Next {
            LoopAsIntended(fuel - 1, until, cond, body, place, ifs, loops, host, st2.(err := false));
          }
        case Timeout =>
      }
    }
  }

  /** More fuel does not change a meaning once it has settled. */
  lemma {:induction false} MoreFuel<W>(fuel: nat, code: Code, place: Place, host: Host<W>, st: State<W>)
    requires Intended(fuel, code, place, host, st).Done?
    ensures Intended(fuel + 1, code, place, host, st) == Intended(fuel, code, place, host, st)
    decreases fuel, code
  {
    match code
    case Seq(a, b) =>
      MoreFuel(fuel, a, place, host, st);
      var r := Intended(fuel, a, place, host, st);
      if r.sig == Next {
        MoreFuel(fuel, b, place, host, r.st);
      }
    case If(inverted, cond, thn, els) =>
      var (w, failed) := host.exec(cond, st.world, st.fail);
      if failed == inverted {
        MoreFuel(fuel, thn, UnderIf(place), host, State(w, false, false));
      } else if els.Some? {
        MoreFuel(fuel, els.value, UnderIf(place), host, State(w, false, false));
      }
    case Loop(until, cond, body) =>
      var (w, failed) := host.exec(cond, st.world, st.fail);
      if failed == until {
        MoreFuel(fuel - 1, body, InLoop, host, State(w, false, false));
        var r := Intended(fuel - 1, body, InLoop, host, State(w, false, false));
        if r.sig == Next {
          MoreFuel(fuel - 1, code, place, host, r.st.(err := false));
        }
      }
    case _ =>
  }

  // ----- layout -----

  lemma {:induction false} LinesSize(code: Code)
    ensures |Lines(code)| == Size(code)
  {
    match code
    case Seq(a, b) => LinesSize(a); LinesSize(b);
    case If(_, _, thn, els) =>
      LinesSize(thn);
      if els.Some? { LinesSize(els.value); }
    case Loop(_, _, body) => LinesSize(body);
    case _ =>
  }

  predicate Occurs(script: seq<Line>, pc: nat, lines: seq<Line>) {
    pc + |lines| <= |script| && forall i :: 0 <= i < |lines| ==> script[pc + i] == lines[i]
  }

  lemma OccursParts(script: seq<Line>, pc: nat, a: seq<Line>, b: seq<Line>)
    requires Occurs(script, pc, a + b)
    ensures Occurs(script, pc, a) && Occurs(script, pc + |a|, b)
  {
    forall i | 0 <= i < |a| ensures script[pc + i] == a[i] { assert (a + b)[i] == a[i]; }
    forall i | 0 <= i < |b| ensures script[pc + |a| + i] == b[i] { assert (a + b)[|a| + i] == b[i]; }
  }

  lemma OccursLine(script: seq<Line>, pc: nat, line: Line)
    requires Occurs(script, pc, [line])
    ensures LineAt(script, pc, line)
  {
    assert script[pc + 0] == [line][0];
  }

  lemma HeadAt(script: seq<Line>, pc: nat, line1: Line, line2: Line, code: Code)
    requires Occurs(script, pc, [line1, line2] + Lines(code))
    ensures LineAt(script, pc, line1) && LineAt(script, pc + 1, line2) && Occurs(script, pc + 2, Lines(code))
  {
    OccursParts(script, pc, [line1, line2], Lines(code));
    assert script[pc + 0] == [line1, line2][0] && script[pc + 1] == [line1, line2][1];
  }

  /** Lines that stand in a script are found there by `At`. */
  lemma {:induction false} OccursAt(script: seq<Line>, pc: nat, code: Code)
    requires Occurs(script, pc, Lines(code))
    ensures At(script, pc, code)
    decreases code, 1
  {
    match code
    case Seq(a, b) =>
      LinesSize(a);
      OccursParts(script, pc, Lines(a), Lines(b));
      OccursAt(script, pc, a);
      OccursAt(script, pc + Size(a), b);
    case Cmd(words) => OccursLine(script, pc, words);
    case Break => OccursLine(script, pc, [BreakW]);
    case If(inverted, cond, thn, els) => OccursIf(script, pc, inverted, cond, thn, els);
    case Loop(until, cond, body) =>
      OccursParts(script, pc, [LoopLine(until, cond), [DoW]] + Lines(body), [[DoneW]]);
      HeadAt(script, pc, LoopLine(until, cond), [DoW], body);
      OccursAt(script, pc + 2, body);
      LinesSize(body);
      OccursLine(script, pc + 2 + Size(body), [DoneW]);
    case Skip =>
  }

  lemma IfParts(script: seq<Line>, pc: nat, inverted: bool, cond: Line, thn: Code, els: Option<Code>)
    requires Occurs(script, pc, Lines(If(inverted, cond, thn, els)))
    ensures LineAt(script, pc, IfLine(inverted, cond)) && LineAt(script, pc + 1, [ThenW])
    ensures Occurs(script, pc + 2, Lines(thn))
    ensures Occurs(script, pc + 2 + Size(thn), ElseLines(els))
    ensures LineAt(script, pc + 2 + Size(thn) + |ElseLines(els)|, [FiW])
  {
    hide Occurs, LineAt, IfLine;
    var head := [IfLine(inverted, cond), [ThenW]];
    LinesSize(thn);
    OccursParts(script, pc, head + Lines(thn) + ElseLines(els), [[FiW]]);
    OccursParts(script, pc, head + Lines(thn), ElseLines(els));
    HeadAt(script, pc, IfLine(inverted, cond), [ThenW], thn);
    OccursLine(script, pc + 2 + Size(thn) + |ElseLines(els)|, [FiW]);
  }

  lemma ElseParts(script: seq<Line>, pc: nat, els: Code)
    requires Occurs(script, pc, ElseLines(Some(els)))
    ensures LineAt(script, pc, [ElseW]) && Occurs(script, pc + 1, Lines(els)) && |ElseLines(Some(els))| == 1 + Size(els)
  {
    LinesSize(els);
    OccursParts(script, pc, [[ElseW]], Lines(els));
    OccursLine(script, pc, [ElseW]);
  }

  lemma {:induction false} OccursIf(script: seq<Line>, pc: nat, inverted: bool, cond: Line, thn: Code,
                                    els: Option<Code>)
    requires Occurs(script, pc, Lines(If(inverted, cond, thn, els)))
    ensures At(script, pc, If(inverted, cond, thn, els))
    decreases If(inverted, cond, thn, els), 0
  {
    hide Occurs, LineAt, Lines;
    IfParts(script, pc, inverted, cond, thn, els);
    OccursAt(script, pc + 2, thn);
    if els.Some? {
      ElseParts(script, pc + 2 + Size(thn), els.value);
      OccursAt(script, pc + 3 + Size(thn), els.value);
    }
  }

  // ----- the main theorems -----

  /** The parser as `nsh_script` finds it at the start of a session. */
  predicate Idle(np: Parser) {
    !np.lost && np.ifs.Bottom? && np.loops.Bottom? && np.depth >= 1
  }

  /** A script read from its first line; `ret` starts out as an error in `nsh_script`. */
  function Begin<W>(np: Parser, world: W): Config<W> {
    Config(0, np, world, true, false)
  }

  /** A structured script that the stacks have room for and that keeps its breaks out of ifs. */
  predicate Script(code: Code, np: Parser) {
    Idle(np) && Shaped(On, code, Top, np.depth - 1, np.depth - 1)
  }

  /** Reading past the last line ends the script. */
  lemma EndOfFile<W>(script: seq<Line>, host: Host<W>, c0: Config<W>, m: nat, c: Config<W>)
    requires Run(m, script, host, c0) == c && c.pc >= |script| && !c.halted
    ensures Run(m + 1, script, host, c0) == c.(halted := true)
  {
    Extend(script, host, c0, m, c);
  }

  /** The machine run over a whole script, for every shape: it halts with the state that
      `Walk` ends in and (unless an error stopped it) both stacks as they were, and it is
      still going after `fuel` turns when `Walk` runs out of fuel. */
  lemma MachineWalks<W>(fuel: nat, code: Code, host: Host<W>, np: Parser, world: W) returns (n: nat)
    requires Script(code, np) && host.tells && host.seeks
    ensures var end := Run(n, Lines(code), host, Begin(np, world));
            match Walk(fuel, On, code, Top, host, State(world, np.fail, true))
            case Endless => n >= fuel && !end.halted && !end.np.lost
            case Stop(st) => end.halted && StateOf(end) == st && !end.np.lost
            case Past(st, _) => end == Config(|Lines(code)|, np.(fail := st.fail), st.world, st.err, true)
  {
    hide Step, Walk, Shaped, Lines, At;
    var script := Lines(code);
    var c := Begin(np, world);
    OccursAt(script, 0, code);
    LinesSize(code);
    var r := Walk(fuel, On, code, Top, host, State(world, np.fail, true));
    var end;
    n, end := Simulate(fuel, On, code, Top, script, host, c, 0, c, r);
    if r.Past? {
      EndOfFile(script, host, c, n, end);
      n := n + 1;
    }
  }

  /** A script whose loops do not nest directly ends in the state it is documented to end in,
      with the stacks restored; and it runs for more than `fuel` lines when its meaning
      does not settle within `fuel` iterations. */
  lemma MachineAsIntended<W>(fuel: nat, code: Code, host: Host<W>, np: Parser, world: W) returns (n: nat)
    requires Script(code, np) && !Nested(code, Top) && host.tells && host.seeks
    ensures var end := Run(n, Lines(code), host, Begin(np, world));
            match Intended(fuel, code, Top, host, State(world, np.fail, true))
            case Timeout => n >= fuel && !end.halted
            case Done(st, sig) =>
              end.halted && StateOf(end) == st &&
              (sig != Stopped ==> end.np == np.(fail := st.fail) && end.pc == |Lines(code)|)
  {
    n := MachineWalks(fuel, code, host, np, world);
    WalkAsIntended(fuel, code, Top, np.depth - 1, np.depth - 1, host, State(world, np.fail, true));
  }

  /** Conversely, a machine that has halted has done what the script means. */
  lemma HaltedAsIntended<W>(n: nat, code: Code, host: Host<W>, np: Parser, world: W)
    requires Script(code, np) && !Nested(code, Top) && host.tells && host.seeks
    requires Run(n, Lines(code), host, Begin(np, world)).halted
    ensures var end := Run(n, Lines(code), host, Begin(np, world));
            match Intended(n, code, Top, host, State(world, np.fail, true))
            case Timeout => false
            case Done(st, sig) => StateOf(end) == st && (sig != Stopped ==> end.np == np.(fail := st.fail))
  {
    var script := Lines(code);
    var c := Begin(np, world);
    var k := MachineAsIntended(n, code, host, np, world);
    if k >= n {
      RunAdd(n, k - n, script, host, c);
      RunUnfold(k - n, script, host, Run(n, script, host, c));
    } else {
      RunAdd(k, n - k, script, host, c);
      RunUnfold(n - k, script, host, Run(k, script, host, c));
    }
  }

  /** A block met while lines are being passed over: no command runs, the last status stays
      and both stacks come back as they were. */
  lemma SkippedBlock<W>(mode: Mode, code: Code, place: Place, script: seq<Line>, host: Host<W>, c: Config<W>)
    returns (n: nat)
    requires mode == IfOff || (mode == LoopOff && !DirectLoop(code))
    requires host.tells && host.seeks && !c.halted
    requires At(script, c.pc, code) && Ready(c.np, mode, place, code)
    ensures var end := Run(n, script, host, c);
            end == c.(pc := c.pc + Size(code), err := end.err)
  {
    PassedOver(0, mode, code, place, host, StateOf(c));
    var end;
    n, end := Simulate(0, mode, code, place, script, host, c, 0, c, Walk(0, mode, code, place, host, StateOf(c)));
  }

  /** Such a script never loses the slots, ... */
  lemma NeverLost<W>(n: nat, code: Code, host: Host<W>, np: Parser, world: W)
    requires Script(code, np) && host.tells && host.seeks
    ensures !Run(n, Lines(code), host, Begin(np, world)).np.lost
  {
    hide Run, Walk, Shaped;
    var script, c := Lines(code), Begin(np, world);
    var k := MachineWalks(n, code, host, np, world);
    if k >= n {
      RunAdd(n, k - n, script, host, c);
      if Run(n, script, host, c).np.lost {
        NshSlots.LostForGood(k - n, script, host, Run(n, script, host, c));
      }
    } else {
      RunAdd(k, n - k, script, host, c);
      RunUnfold(n - k, script, host, Run(k, script, host, c));
    }
  }

  /** ... so that the arrays of slots go through it in step with the lists: all that is said of the
      lists here holds of the arrays. */
  lemma SlotsInStep<W>(n: nat, code: Code, host: Host<W>, t: NshSlots.Table, world: W)
    requires Script(code, NshSlots.View(t)) && host.tells && host.seeks
    ensures var p := NshSlots.Turns(n, Lines(code), host, NshSlots.Spot(0, t, world, true, false));
            Run(n, Lines(code), host, Begin(NshSlots.View(t), world)) ==
            Config(p.pc, NshSlots.View(p.t), p.world, p.err, p.halted)
  {
    hide Run, NshSlots.Turns, NshSlots.View, Script;
    var np := NshSlots.View(t);
    NeverLost(n, code, host, np, world);
    NshSlots.TurnsFollow(n, Lines(code), host, NshSlots.Spot(0, t, world, true, false), Begin(np, world));
  }

  /** The script on the arrays, with nothing live at its start and nothing left live at its end. */
  lemma SlotsAsIntended<W>(fuel: nat, code: Code, host: Host<W>, t: NshSlots.Table, world: W) returns (n: nat)
    requires t.iendx == 0 && t.lpndx == 0 && Shaped(On, code, Top, |t.ie| - 1, |t.ie| - 1) && !Nested(code, Top)
    requires host.tells && host.seeks
    ensures var end := NshSlots.Turns(n, Lines(code), host, NshSlots.Spot(0, t, world, true, false));
            match Intended(fuel, code, Top, host, State(world, t.fail, true))
            case Timeout => n >= fuel && !end.halted
            case Done(st, sig) =>
              end.halted && State(end.world, end.t.fail, end.err) == st &&
              (sig != Stopped ==> end.t.iendx == 0 && end.t.lpndx == 0 && end.pc == |Lines(code)|)
  {
    hide Run, NshSlots.Turns, Intended, Shaped, Nested, Lines;
    n := MachineAsIntended(fuel, code, host, NshSlots.View(t), world);
    SlotsInStep(n, code, host, t, world);
    NshSlots.ViewParts(NshSlots.Turns(n, Lines(code), host, NshSlots.Spot(0, t, world, true, false)).t);
  }
}
