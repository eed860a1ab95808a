/** Breaks inside an `if`, over whole scripts: for scripts whose loops stand outside every `if`, the
    exact condition under which the line machine does what such a script is documented to mean. */
module ScriptEscape {
  import opened Wrappers
  import opened NshParser
  import opened NshScript
  import opened ScriptSemantics
  import opened ScriptPositions
  import opened ScriptSimulation
  import opened ScriptTheorems
  import opened ScriptNesting
  import opened ScriptBreak

  // ----- shapes -----

  predicate HasLoop(code: Code) {
    match code
    case Seq(a, b) => HasLoop(a) || HasLoop(b)
    case If(_, _, thn, els) => HasLoop(thn) || (els.Some? && HasLoop(els.value))
    case Loop(_, _, _) => true
    case _ => false
  }

  /** Every loop stands outside every `if` and outside every other loop. */
  predicate Flat(code: Code) {
    match code
    case Seq(a, b) => Flat(a) && Flat(b)
    case Loop(_, _, body) => !HasLoop(body)
    case _ => !HasLoop(code)
  }

  /** A break that can be reached stands in an `if` that was opened inside its loop. */
  predicate Escapes(code: Code, place: Place) {
    match code
    case Seq(a, b) => Escapes(a, place) || (!(place == InLoop && Breaks(a)) && Escapes(b, place))
    case Break => place == InLoopIf
    case If(_, _, thn, els) => Escapes(thn, UnderIf(place)) || (els.Some? && Escapes(els.value, UnderIf(place)))
    case Loop(_, _, body) => Escapes(body, InLoop)
    case _ => false
  }

  lemma {:induction false} FlatNoLoop(code: Code)
    requires !HasLoop(code)
    ensures Flat(code) && !DirectLoop(code)
  {
    match code
    case Seq(a, b) => FlatNoLoop(a); FlatNoLoop(b);
    case _ =>
  }

  lemma {:induction false} NoLoopNotNested(code: Code, place: Place)
    requires !HasLoop(code)
    ensures !Nested(code, place)
  {
    match code
    case Seq(a, b) => NoLoopNotNested(a, place); NoLoopNotNested(b, place);
    case If(_, _, thn, els) =>
      NoLoopNotNested(thn, UnderIf(place));
      if els.Some? {
        NoLoopNotNested(els.value, UnderIf(place));
      }
    case _ =>
  }

  lemma {:induction false} FlatNotNested(code: Code)
    requires Flat(code)
    ensures !Nested(code, Top)
  {
    match code
    case Seq(a, b) => FlatNotNested(a); FlatNotNested(b);
    case Loop(_, _, body) => FlatNoLoop(body); NoLoopNotNested(body, InLoop);
    case _ => NoLoopNotNested(code, Top);
  }

  /** Code without loops is passed over in one mode as in the other. */
  lemma {:induction false} PassableNoLoop(mode: Mode, code: Code, place: Place, ifs: nat, loops: nat)
    requires Shaped(IfOff, code, place, ifs, loops) && !HasLoop(code) && mode != On
    ensures Shaped(mode, code, place, ifs, loops)
    decreases code
  {
    match code
    case Seq(a, b) =>
      PassableNoLoop(mode, a, place, ifs, loops);
      PassableNoLoop(mode, b, place, ifs, loops);
    case _ =>
  }

  /** A script is fit to be run if it is fit to be passed over and no break escapes. */
  lemma {:induction false} Runnable(code: Code, place: Place, ifs: nat, loops: nat)
    requires Shaped(IfOff, code, place, ifs, loops) && !HasLoop(code) && !Escapes(code, place)
    ensures Shaped(On, code, place, ifs, loops)
    decreases code
  {
    match code
    case Seq(a, b) =>
      Runnable(a, place, ifs, loops);
      if place == InLoop && Breaks(a) {
        PassableNoLoop(LoopOff, b, place, ifs, loops);
      } else {
        Runnable(b, place, ifs, loops);
      }
    case If(_, _, thn, els) =>
      Runnable(thn, UnderIf(place), ifs - 1, loops);
      if els.Some? {
        Runnable(els.value, UnderIf(place), ifs - 1, loops);
      }
    case _ =>
  }

  lemma {:induction false} RunnableTop(code: Code, ifs: nat, loops: nat)
    requires Shaped(IfOff, code, Top, ifs, loops) && Flat(code) && !Escapes(code, Top)
    ensures Shaped(On, code, Top, ifs, loops)
    decreases code
  {
    match code
    case Seq(a, b) =>
      RunnableTop(a, ifs, loops);
      RunnableTop(b, ifs, loops);
    case Loop(_, _, body) => Runnable(body, InLoop, ifs, loops - 1);
    case _ => Runnable(code, Top, ifs, loops);
  }

  /** More room does no harm, and code that is passed over may stand anywhere. */
  lemma {:induction false} PassableAnywhere(code: Code, place: Place, place': Place, ifs: nat, ifs': nat, loops: nat)
    requires Shaped(IfOff, code, place, ifs, loops) && ifs <= ifs'
    ensures Shaped(IfOff, code, place', ifs', loops)
    decreases code
  {
    match code
    case Seq(a, b) =>
      PassableAnywhere(a, place, place', ifs, ifs', loops);
      PassableAnywhere(b, place, place', ifs, ifs', loops);
    case If(_, _, thn, els) =>
      PassableAnywhere(thn, UnderIf(place), UnderIf(place'), ifs - 1, ifs' - 1, loops);
      if els.Some? {
        PassableAnywhere(els.value, UnderIf(place), UnderIf(place'), ifs - 1, ifs' - 1, loops);
      }
    case Loop(_, _, body) => PassableAnywhere(body, InLoop, InLoop, ifs, ifs', loops - 1);
    case _ =>
  }

  // ----- a plan that leads to the break -----

  /** The results of commands that lead, by the shortest way, to the first break that escapes and,
      once its loop has been left, on to the end. */
  function EscapePlan(code: Code, place: Place, rest: Stack<bool>): Stack<bool>
    requires Escapes(code, place)
  {
    match code
    case Seq(a, b) =>
      if Escapes(a, place) then EscapePlan(a, place, if place == Top then MinPlan(b, Top, rest) else rest)
      else MinPlan(a, place, EscapePlan(b, place, rest))
    case Break => rest
    case If(inverted, _, thn, els) =>
      if Escapes(thn, UnderIf(place)) then Push(inverted, EscapePlan(thn, UnderIf(place), rest))
      else Push(!inverted, EscapePlan(els.value, UnderIf(place), rest))
    case Loop(until, _, body) => Push(until, EscapePlan(body, InLoop, rest))
  }

  /** The outcome of a script that leaves its loop by such a break. */
  ghost predicate Leaves(r: Outcome<Plan>, rest: Stack<bool>, place: Place) {
    r.Done? && r.st.world.todo == rest && r.sig == (if place == Top then Next else Broke) && !r.st.err
  }

  /** What has to hold of code at a place for the plan to be there. */
  predicate Suits(code: Code, place: Place) {
    Escapes(code, place) && if place == Top then Flat(code) else !HasLoop(code)
  }

  lemma {:induction false} StraightPrefix(code: Code, place: Place)
    requires !Escapes(code, place) && !HasLoop(code)
    ensures Straight(code, place)
  {
    match code
    case Seq(a, b) =>
      StraightPrefix(a, place);
      if !(place == InLoop && Breaks(a)) {
        StraightPrefix(b, place);
      }
    case If(_, _, thn, els) =>
      StraightPrefix(thn, UnderIf(place));
      if els.Some? {
        StraightPrefix(els.value, UnderIf(place));
      }
    case _ =>
  }

  lemma {:induction false} TopNeverEscapes(code: Code)
    requires !HasLoop(code)
    ensures !Escapes(code, Top)
  {
    match code
    case Seq(a, b) => TopNeverEscapes(a); TopNeverEscapes(b);
    case If(_, _, thn, els) =>
      TopNeverEscapes(thn);
      if els.Some? {
        TopNeverEscapes(els.value);
      }
    case _ =>
  }

  lemma {:induction false} StraightTop(code: Code)
    requires Flat(code)
    ensures Straight(code, Top)
  {
    match code
    case Seq(a, b) => StraightTop(a); StraightTop(b);
    case Loop(_, _, _) =>
    case _ => TopNeverEscapes(code); StraightPrefix(code, Top);
  }

  /** On this plan the script is meant to end well. */
  lemma {:induction false} EscapeEnds(fuel: nat, code: Code, place: Place, rest: Stack<bool>, st: State<Plan>)
    requires Suits(code, place) && fuel >= (if place == Top then 2 else 1)
    requires st.world.todo == EscapePlan(code, place, rest)
    ensures Leaves(Intended(fuel, code, place, Planned(false), st), rest, place)
    decreases code, 1
  {
    match code
    case Seq(a, b) => EscapeSeqEnds(fuel, a, b, place, rest, st);
    case Break =>
    case If(inverted, cond, thn, els) =>
      var (w, failed) := Follow(cond, st.world, st.fail);
      var st1 := State(w, false, false);
      IfMeaning(fuel, inverted, cond, thn, els, place, Planned(false), st, st1, failed);
      if place == Top {
        TopNeverEscapes(code);
      } else if Escapes(thn, UnderIf(place)) {
        EscapeEnds(fuel, thn, UnderIf(place), rest, st1);
      } else {
        EscapeEnds(fuel, els.value, UnderIf(place), rest, st1);
      }
    case Loop(until, cond, body) =>
      EscapeEnds(fuel - 1, body, InLoop, rest, State(Follow(cond, st.world, st.fail).0, false, false));
  }

  lemma {:induction false} EscapeSeqEnds(fuel: nat, a: Code, b: Code, place: Place, rest: Stack<bool>, st: State<Plan>)
    requires Suits(Seq(a, b), place) && fuel >= (if place == Top then 2 else 1)
    requires st.world.todo == EscapePlan(Seq(a, b), place, rest)
    ensures Leaves(Intended(fuel, Seq(a, b), place, Planned(false), st), rest, place)
    decreases Seq(a, b), 0
  {
    if Escapes(a, place) {
      EscapeEnds(fuel, a, place, if place == Top then MinPlan(b, Top, rest) else rest, st);
      if place == Top {
        StraightTop(b);
        MinPlanEnds(false, fuel, b, Top, rest, Intended(fuel, a, place, Planned(false), st).st);
      }
    } else {
      if place == Top {
        StraightTop(a);
      } else {
        StraightPrefix(a, place);
      }
      MinPlanEnds(false, fuel, a, place, EscapePlan(b, place, rest), st);
      EscapeEnds(fuel, b, place, rest, Intended(fuel, a, place, Planned(false), st).st);
    }
  }

  // ----- the machine on that plan -----

  /** The machine passes over a piece of code that comes before the break. */
  lemma Before(a: Code, place: Place, script: seq<Line>, c0: Config<Plan>, m: nat, c: Config<Plan>, rest: Stack<bool>)
    returns (n: nat, end: Config<Plan>)
    requires !c.halted && Run(m, script, Planned(false), c0) == c && At(script, c.pc, a)
    requires Ready(c.np, On, place, a) && Straight(a, place) && !(place == InLoop && Breaks(a))
    requires !Nested(a, place) && (place == InLoop ==> !DirectLoop(a)) && c.world.todo == MinPlan(a, place, rest)
    ensures Run(n, script, Planned(false), c0) == end && !end.halted && end.world.todo == rest
    ensures end.pc == c.pc + Size(a) && end.np == c.np.(fail := end.np.fail)
  {
    hide Step, Run, ModeOf, PlaceOf;
    var host, st := Planned(false), StateOf(c);
    var r := Walk(1, On, a, place, host, st);
    WalkAsIntended(1, a, place, Room(c.np.ifs, c.np.depth), Room(c.np.loops, c.np.depth), host, st);
    MinPlanEnds(false, 1, a, place, rest, st);
    n, end := Simulate(1, On, a, place, script, host, c0, m, c, r);
  }

  /** The parser in the body of a loop that stands outside every `if`. */
  predicate InLoopAt(np: Parser, place: Place) {
    && ModeOf(np) == Some(On) && PlaceOf(np) == place && place != Top
    && np.loops.Push? && np.loops.top.iendx == 0
  }

  /** The shape of code met there, as far as the stacks go. */
  predicate Sized(np: Parser, code: Code, place: Place) {
    Shaped(IfOff, code, place, Room(np.ifs, np.depth), Room(np.loops, np.depth))
  }

  /** The shape of the code left in an `if` after the break, once no `if` is live. */
  predicate Trails(np: Parser, tail: Code) {
    !HasLoop(tail) && Shaped(IfOff, tail, InLoop, Room(Stack<IfEntry>.Bottom, np.depth), Room(np.loops, np.depth))
  }

  /** After the break no `if` is left, so that lines are passed over in the loop body itself. */
  lemma BrokenReady(np: Parser, tail: Code)
    requires InLoopAt(np, InLoopIf) && Trails(np, tail)
    ensures Broken(np).ifs == Bottom && Ready(Broken(np), LoopOff, InLoop, tail)
  {
    KeepHeight(np.ifs, 0);
    PassableNoLoop(LoopOff, tail, InLoop, Room(Stack<IfEntry>.Bottom, np.depth), Room(np.loops, np.depth));
  }

  lemma TailReady(b: Code, tail: Code, np: Parser)
    requires Sized(np, b, InLoopIf) && !HasLoop(b) && Trails(np, tail)
    ensures Trails(np, Seq(b, tail))
  {
    PassableAnywhere(b, InLoopIf, InLoop, Room(np.ifs, np.depth), Room(Stack<IfEntry>.Bottom, np.depth),
                     Room(np.loops, np.depth));
  }

  lemma StillTrails(np: Parser, fail: bool, tail: Code)
    ensures Trails(np.(fail := fail), tail) == Trails(np, tail)
  {
  }

  lemma SeqParts(a: Code, b: Code, place: Place, np: Parser)
    requires Suits(Seq(a, b), place) && Sized(np, Seq(a, b), place) && place != Top
    ensures Sized(np, a, place) && Sized(np, b, place) && !HasLoop(a) && !HasLoop(b)
    ensures if Escapes(a, place) then Suits(a, place) else Suits(b, place)
  {
  }

  /** Past the first of two pieces of code, when the break is in the second. */
  lemma PastFirst(a: Code, b: Code, place: Place, script: seq<Line>, c0: Config<Plan>, m: nat, c: Config<Plan>,
                  rest: Stack<bool>)
    returns (n: nat, end: Config<Plan>)
    requires !c.halted && Run(m, script, Planned(false), c0) == c && InLoopAt(c.np, place) && At(script, c.pc, a)
    requires Suits(Seq(a, b), place) && !Escapes(a, place) && Sized(c.np, Seq(a, b), place)
    requires c.world.todo == EscapePlan(Seq(a, b), place, rest)
    ensures Run(n, script, Planned(false), c0) == end && !end.halted && end.pc == c.pc + Size(a)
    ensures InLoopAt(end.np, place) && Sized(end.np, b, place) && end.np == c.np.(fail := end.np.fail)
    ensures end.world.todo == EscapePlan(b, place, rest)
  {
    hide Step, Run, MinPlan;
    SeqParts(a, b, place, c.np);
    Runnable(a, place, Room(c.np.ifs, c.np.depth), Room(c.np.loops, c.np.depth));
    StraightPrefix(a, place);
    NoLoopNotNested(a, place);
    FlatNoLoop(a);
    n, end := Before(a, place, script, c0, m, c, EscapePlan(b, place, rest));
  }

  lemma StopsAtBreak(tail: Code, word: Word, script: seq<Line>, c0: Config<Plan>, m: nat, c: Config<Plan>)
    returns (n: nat)
    requires !c.halted && Run(m, script, Planned(false), c0) == c && InLoopAt(c.np, InLoopIf)
    requires LineAt(script, c.pc, [BreakW]) && At(script, c.pc + 1, tail) && Trails(c.np, tail)
    requires word in {ElseW, FiW} && LineAt(script, c.pc + 1 + Size(tail), [word])
    ensures var end := Run(n, script, Planned(false), c0); end.halted && end.err
  {
    hide Step, Run;
    BrokenReady(c.np, tail);
    FlatNoLoop(tail);
    n := BreakInIf(script, Planned(false), c0, m, c, tail, word);
  }

  /** In an `if`, with `tail` left of its part and then its `else` or `fi`: the machine stops there
      with an error. */
  lemma {:induction false} StopsInIf(code: Code, tail: Code, word: Word, script: seq<Line>, c0: Config<Plan>, m: nat,
                                     c: Config<Plan>, rest: Stack<bool>)
    returns (n: nat)
    requires !c.halted && Run(m, script, Planned(false), c0) == c && InLoopAt(c.np, InLoopIf)
    requires At(script, c.pc, code) && At(script, c.pc + Size(code), tail) && Trails(c.np, tail)
    requires word in {ElseW, FiW} && LineAt(script, c.pc + Size(code) + Size(tail), [word])
    requires Suits(code, InLoopIf) && Sized(c.np, code, InLoopIf)
    requires c.world.todo == EscapePlan(code, InLoopIf, rest)
    ensures var end := Run(n, script, Planned(false), c0); end.halted && end.err
    decreases code, 2
  {
    hide Step, Run, InLoopAt, Shaped, Sized, Trails, MinPlan, EscapePlan;
    match code
    case Break => n := StopsAtBreak(tail, word, script, c0, m, c);
    case If(_, _, _, _) => n := StopsAtIf(code, InLoopIf, script, c0, m, c, rest);
    case Seq(a, b) => n := StopsInSeq(a, b, tail, word, script, c0, m, c, rest);
  }

  lemma {:induction false} StopsInSeq(a: Code, b: Code, tail: Code, word: Word, script: seq<Line>, c0: Config<Plan>,
                                      m: nat, c: Config<Plan>, rest: Stack<bool>)
    returns (n: nat)
    requires !c.halted && Run(m, script, Planned(false), c0) == c && InLoopAt(c.np, InLoopIf)
    requires At(script, c.pc, a) && At(script, c.pc + Size(a), b) && At(script, c.pc + Size(a) + Size(b), tail)
    requires word in {ElseW, FiW} && LineAt(script, c.pc + Size(a) + Size(b) + Size(tail), [word])
    requires Suits(Seq(a, b), InLoopIf) && Sized(c.np, Seq(a, b), InLoopIf) && Trails(c.np, tail)
    requires c.world.todo == EscapePlan(Seq(a, b), InLoopIf, rest)
    ensures var end := Run(n, script, Planned(false), c0); end.halted && end.err
    decreases Seq(a, b), 1
  {
    hide Step, Run, InLoopAt, Shaped, Sized, HasLoop, Trails, MinPlan, At, Size;
    AtSeq(script, c.pc + Size(a), b, tail);
    SeqParts(a, b, InLoopIf, c.np);
    if Escapes(a, InLoopIf) {
      TailReady(b, tail, c.np);
      n := StopsInIf(a, Seq(b, tail), word, script, c0, m, c, rest);
    } else {
      var end;
      n, end := PastFirst(a, b, InLoopIf, script, c0, m, c, rest);
      StillTrails(c.np, end.np.fail, tail);
      n := StopsInIf(b, tail, word, script, c0, n, end, rest);
    }
  }

  /** An `if` in a loop body with the break in one of its parts. */
  lemma {:induction false} StopsAtIf(code: Code, place: Place, script: seq<Line>, c0: Config<Plan>, m: nat,
                                     c: Config<Plan>, rest: Stack<bool>)
    returns (n: nat)
    requires !c.halted && Run(m, script, Planned(false), c0) == c && InLoopAt(c.np, place)
    requires code.If? && At(script, c.pc, code) && Suits(code, place) && Sized(c.np, code, place)
    requires c.world.todo == EscapePlan(code, place, rest)
    ensures var end := Run(n, script, Planned(false), c0); end.halted && end.err
    decreases code, 1
  {
    hide Step, Run, ModeOf, PlaceOf;
    var If(inverted, cond, thn, els) := code;
    var (st, failed) := Tested(Planned(false), cond, true, StateOf(c));
    HeadIf(script, Planned(false), c0, m, c, On, inverted, cond, st, failed);
    var c1 := Config(c.pc + 2, InBranch(c.np, inverted, failed, IfThen).(fail := st.fail), st.world, false, false);
    BranchPlace(c.np, On, inverted, failed, IfThen, st.fail);
    if Escapes(thn, InLoopIf) {
      n := StopsInIf(thn, Skip, if els.Some? then ElseW else FiW, script, c0, m + 2, c1, rest);
    } else {
      n := StopsInElse(code, place, script, c0, m + 2, c, c1, rest);
    }
  }

  /** In the else part of such an `if`, its test having gone the other way. */
  lemma IntoElse(code: Code, place: Place, script: seq<Line>, c0: Config<Plan>, m: nat, c: Config<Plan>,
                 c1: Config<Plan>)
    returns (n: nat, c3: Config<Plan>)
    requires !c1.halted && Run(m, script, Planned(false), c0) == c1 && InLoopAt(c.np, place) && code.If?
             && code.els.Some?
    requires At(script, c.pc, code) && Sized(c.np, code, place)
    requires c1.pc == c.pc + 2 && c1.np == InBranch(c.np, code.inverted, !code.inverted, IfThen).(fail := c1.np.fail)
    ensures Run(n, script, Planned(false), c0) == c3 && c3.world == c1.world && !c3.halted
    ensures c3.pc == c.pc + 3 + Size(code.thn)
    ensures c3.np == InBranch(c.np, code.inverted, !code.inverted, IfElse).(fail := c3.np.fail)
  {
    hide Step, Run, PlaceOf, Room;
    var If(inverted, cond, thn, els) := code;
    BranchPlace(c.np, On, inverted, !inverted, IfThen, c1.np.fail);
    n := SkippedBlock(IfOff, thn, InLoopIf, script, Planned(false), c1);
    var c2 := Run(n, script, Planned(false), c1);
    RunAdd(m, n, script, Planned(false), c0);
    OpenElse(script, Planned(false), c0, m + n, c2, c.np, inverted, !inverted);
    n := m + n + 1;
    c3 := Config(c2.pc + 1, InBranch(c.np, inverted, !inverted, IfElse).(fail := c2.np.fail), c2.world, false, false);
  }

  lemma {:induction false} StopsInElse(code: Code, place: Place, script: seq<Line>, c0: Config<Plan>, m: nat,
                                       c: Config<Plan>, c1: Config<Plan>, rest: Stack<bool>)
    returns (n: nat)
    requires !c1.halted && Run(m, script, Planned(false), c0) == c1 && InLoopAt(c.np, place) && code.If?
             && code.els.Some?
    requires At(script, c.pc, code) && Sized(c.np, code, place) && Suits(code.els.value, InLoopIf) && !HasLoop(code)
    requires c1.pc == c.pc + 2 && c1.np == InBranch(c.np, code.inverted, !code.inverted, IfThen).(fail := c1.np.fail)
    requires c1.world.todo == EscapePlan(code.els.value, InLoopIf, rest)
    ensures var end := Run(n, script, Planned(false), c0); end.halted && end.err
    decreases code, 0
  {
    hide Step, Run, PlaceOf, Room, EscapePlan, Escapes;
    var c3;
    n, c3 := IntoElse(code, place, script, c0, m, c, c1);
    BranchPlace(c.np, On, code.inverted, !code.inverted, IfElse, c3.np.fail);
    n := StopsInIf(code.els.value, Skip, FiW, script, c0, n, c3, rest);
  }

  /** The body of a loop that stands outside every `if`. */
  lemma {:induction false} StopsInBody(code: Code, script: seq<Line>, c0: Config<Plan>, m: nat, c: Config<Plan>,
                                       rest: Stack<bool>)
    returns (n: nat)
    requires !c.halted && Run(m, script, Planned(false), c0) == c && InLoopAt(c.np, InLoop) && At(script, c.pc, code)
    requires Suits(code, InLoop) && Sized(c.np, code, InLoop) && c.world.todo == EscapePlan(code, InLoop, rest)
    ensures var end := Run(n, script, Planned(false), c0); end.halted && end.err
    decreases code
  {
    hide Step, Run, InLoopAt, Shaped, Sized, MinPlan;
    match code
    case If(_, _, _, _) => n := StopsAtIf(code, InLoop, script, c0, m, c, rest);
    case Seq(a, b) =>
      SeqParts(a, b, InLoop, c.np);
      if Escapes(a, InLoop) {
        n := StopsInBody(a, script, c0, m, c, rest);
      } else {
        var end;
        n, end := PastFirst(a, b, InLoop, script, c0, m, c, rest);
        n := StopsInBody(b, script, c0, n, end, rest);
      }
  }

  /** A whole script, between loops. */
  lemma {:induction false} StopsOnTop(code: Code, script: seq<Line>, c0: Config<Plan>, m: nat, c: Config<Plan>,
                                      rest: Stack<bool>)
    returns (n: nat)
    requires !c.halted && Run(m, script, Planned(false), c0) == c && Idle(c.np) && At(script, c.pc, code)
    requires Suits(code, Top) && Sized(c.np, code, Top) && c.world.todo == EscapePlan(code, Top, rest)
    ensures var end := Run(n, script, Planned(false), c0); end.halted && end.err
    decreases code
  {
    hide Step, Run;
    match code
    case If(_, _, _, _) => TopNeverEscapes(code); assert false;
    case Loop(until, cond, body) =>
      var (st, failed) := Tested(Planned(false), cond, true, StateOf(c));
      HeadLoop(script, Planned(false), c0, m, c, On, until, cond, st, failed);
      var c1 := Config(c.pc + 2, InBody(c.np, true, c.pc).(fail := st.fail), st.world, false, false);
      n := StopsInBody(body, script, c0, m + 2, c1, rest);
    case Seq(a, b) =>
      if Escapes(a, Top) {
        n := StopsOnTop(a, script, c0, m, c, MinPlan(b, Top, rest));
      } else {
        RunnableTop(a, Room(c.np.ifs, c.np.depth), Room(c.np.loops, c.np.depth));
        StraightTop(a);
        FlatNotNested(a);
        var end;
        n, end := Before(a, Top, script, c0, m, c, EscapePlan(b, Top, rest));
        n := StopsOnTop(b, script, c0, n, end, rest);
      }
  }

  // ----- exactness -----

  /** A script that the stacks have room for; its breaks may stand anywhere. */
  predicate AnyScript(code: Code, np: Parser) {
    Idle(np) && Shaped(IfOff, code, Top, np.depth - 1, np.depth - 1)
  }

  /** A break that escapes has results of the other commands for which the script is meant to end
      well, and on which the machine, when errors stop it, stops with an error. */
  lemma EscapeGoesWrong(code: Code, np: Parser) returns (n: nat)
    requires AnyScript(code, np) && Flat(code) && Escapes(code, Top)
    ensures var plan := Plan(EscapePlan(code, Top, Bottom), 0);
            var meaning := Intended(2, code, Top, Planned(false), State(plan, np.fail, true));
            var end := Run(n, Lines(code), Planned(false), Begin(np, plan));
            meaning.Done? && meaning.sig == Next && !meaning.st.err && end.halted && end.err
  {
    var plan := Plan(EscapePlan(code, Top, Bottom), 0);
    EscapeEnds(2, code, Top, Bottom, State(plan, np.fail, true));
    OccursAt(Lines(code), 0, code);
    n := StopsOnTop(code, Lines(code), Begin(np, plan), 0, Begin(np, plan), Bottom);
  }

  /** Among the scripts whose loops stand outside every `if` and every other loop, the machine runs
      exactly those as documented in which no break that can be reached stands in an `if`. */
  lemma BreakExact(code: Code, np: Parser)
    requires AnyScript(code, np) && Flat(code)
    ensures Faithful(code, np) <==> !Escapes(code, Top)
  {
    if Escapes(code, Top) {
      var plan := Plan(EscapePlan(code, Top, Bottom), 0);
      var meaning := Intended(2, code, Top, Planned(false), State(plan, np.fail, true));
      var n := EscapeGoesWrong(code, np);
      if Faithful(code, np) {
        var k: nat :| HaltsIn(k, code, np, Planned(false), plan, meaning.st);
        HaltOnce(k, n, Lines(code), Planned(false), Begin(np, plan));
        assert false;
      }
    } else {
      RunnableTop(code, np.depth - 1, np.depth - 1);
      FlatNotNested(code);
      UnnestedIsFaithful(code, np);
    }
  }
}
