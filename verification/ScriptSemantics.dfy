/** Structured scripts: their syntax tree, the lines they are written as, what they are
    documented to mean (`Intended`), and what the line machine makes of them (`Walk`). */
module ScriptSemantics {
  import opened Wrappers
  import opened NshParser
  import opened NshScript

  /** The command forms of the shell's README: simple commands, if-then[-else]-fi with an
      optional `!`, while and until loops, and break. */
  datatype Code =
    | Skip
    | Seq(first: Code, second: Code)
    | Cmd(words: Line)
    | Break
    | If(inverted: bool, cond: Line, thn: Code, els: Option<Code>)
    | Loop(until: bool, cond: Line, body: Code)

  /** A simple command: its first word is none of the words the parser looks for. */
  predicate Plain(words: Line) {
    words != [] && words[0].Text?
  }

  function IfLine(inverted: bool, cond: Line): Line {
    (if inverted then [IfW, BangW] else [IfW]) + cond
  }

  function LoopLine(until: bool, cond: Line): Line {
    [if until then UntilW else WhileW] + cond
  }

  function Lines(code: Code): seq<Line> {
    match code
    case Skip => []
    case Seq(a, b) => Lines(a) + Lines(b)
    case Cmd(words) => [words]
    case Break => [[BreakW]]
    case If(inverted, cond, thn, els) =>
      [IfLine(inverted, cond), [ThenW]] + Lines(thn) + ElseLines(els) + [[FiW]]
    case Loop(until, cond, body) =>
      [LoopLine(until, cond), [DoW]] + Lines(body) + [[DoneW]]
  }

  function ElseLines(els: Option<Code>): seq<Line> {
    match els case None => [] case Some(e) => [[ElseW]] + Lines(e)
  }

  /** The number of lines. */
  function Size(code: Code): nat {
    match code
    case Skip => 0
    case Seq(a, b) => Size(a) + Size(b)
    case Cmd(_) | Break => 1
    case If(_, _, thn, els) => Size(thn) + (match els case None => 3 case Some(e) => 4 + Size(e))
    case Loop(_, _, body) => 3 + Size(body)
  }

  predicate LineAt(script: seq<Line>, pc: nat, line: Line) {
    pc < |script| && script[pc] == line
  }

  /** The lines of `code` stand in the script from line `pc` on. */
  predicate At(script: seq<Line>, pc: nat, code: Code)
    decreases code
  {
    match code
    case Skip => true
    case Seq(a, b) => At(script, pc, a) && At(script, pc + Size(a), b)
    case Cmd(words) => LineAt(script, pc, words)
    case Break => LineAt(script, pc, [BreakW])
    case If(inverted, cond, thn, els) =>
      var next := pc + 2 + Size(thn);
      && LineAt(script, pc, IfLine(inverted, cond)) && LineAt(script, pc + 1, [ThenW])
      && At(script, pc + 2, thn)
      && (match els
          case None => LineAt(script, next, [FiW])
          case Some(e) =>
            LineAt(script, next, [ElseW]) && At(script, next + 1, e) && LineAt(script, next + 1 + Size(e), [FiW]))
    case Loop(until, cond, body) =>
      && LineAt(script, pc, LoopLine(until, cond)) && LineAt(script, pc + 1, [DoW])
      && At(script, pc + 2, body)
      && LineAt(script, pc + 2 + Size(body), [DoneW])
  }

  lemma AtSeq(script: seq<Line>, pc: nat, a: Code, b: Code)
    ensures At(script, pc, Seq(a, b)) == (At(script, pc, a) && At(script, pc + Size(a), b))
    ensures Size(Seq(a, b)) == Size(a) + Size(b)
  {
  }

  /** Where a piece of code stands: outside every loop, directly in a loop body, or in an
      `if` opened inside a loop body. */
  datatype Place = Top | InLoop | InLoopIf

  function UnderIf(place: Place): Place {
    if place == Top then Top else InLoopIf
  }

  /** A break stands directly in this code, so that nothing after it is reached. */
  predicate Breaks(code: Code) {
    match code
    case Seq(a, b) => Breaks(a) || Breaks(b)
    case Break => true
    case _ => false
  }

  /** Why lines are being processed or passed over. */
  datatype Mode = On | LoopOff | IfOff

  /** The mode in which the code after `a` is met. */
  function ModeAfter(mode: Mode, a: Code, place: Place): Mode {
    if mode == On && place == InLoop && Breaks(a) then LoopOff else mode
  }

  /** The scripts the simulation is about: simple commands are plain, ifs and loops nest no
      deeper than the stack slots still free, and no break that is reached in this mode stands
      in an `if` that was opened inside the loop it would leave. */
  predicate Shaped(mode: Mode, code: Code, place: Place, ifs: nat, loops: nat)
    decreases code
  {
    match code
    case Skip => true
    case Seq(a, b) => Shaped(mode, a, place, ifs, loops) && Shaped(ModeAfter(mode, a, place), b, place, ifs, loops)
    case Cmd(words) => Plain(words)
    case Break => mode == On ==> place != InLoopIf
    case If(_, cond, thn, els) =>
      && Plain(cond) && ifs >= 1
      && Shaped(if mode == On then On else IfOff, thn, UnderIf(place), ifs - 1, loops)
      && (match els
          case None => true
          case Some(e) => Shaped(if mode == On then On else IfOff, e, UnderIf(place), ifs - 1, loops))
    case Loop(_, cond, body) =>
      Plain(cond) && loops >= 1 && Shaped(if mode == IfOff then IfOff else On, body, InLoop, ifs, loops - 1)
  }

  /** What may be run may be passed over. */
  lemma {:induction false} ShapedOff(mode: Mode, mode': Mode, code: Code, place: Place, ifs: nat, loops: nat)
    requires Shaped(mode, code, place, ifs, loops) && (mode == mode' || mode == On || mode' == IfOff)
    ensures Shaped(mode', code, place, ifs, loops)
    decreases code
  {
    match code
    case Seq(a, b) =>
      ShapedOff(mode, mode', a, place, ifs, loops);
      ShapedOff(ModeAfter(mode, a, place), ModeAfter(mode', a, place), b, place, ifs, loops);
    case If(_, _, thn, els) =>
      var m, m' := if mode == On then On else IfOff, if mode' == On then On else IfOff;
      ShapedOff(m, m', thn, UnderIf(place), ifs - 1, loops);
      if els.Some? {
        ShapedOff(m, m', els.value, UnderIf(place), ifs - 1, loops);
      }
    case Loop(_, _, body) =>
      var m, m' := if mode == IfOff then IfOff else On, if mode' == IfOff then IfOff else On;
      ShapedOff(m, m', body, InLoop, ifs, loops - 1);
    case _ =>
  }

  /** The state a script acts on: the world, the last command status, and the error value
      returned for the last line. */
  datatype State<+W> = State(world: W, fail: bool, err: bool)

  // ----- what scripts are documented to mean -----

  datatype Signal = Next | Broke | Stopped

  datatype Outcome<+W> = Timeout | Done(st: State<W>, sig: Signal)

  /** The meaning of structured code by recursion over its tree.  `fuel` bounds the number
      of nested and successive loop iterations.  A condition leaves the last status clear. */
  function Intended<W>(fuel: nat, code: Code, place: Place, host: Host<W>, st: State<W>): Outcome<W>
    decreases fuel, code
  {
    match code
    case Skip => Done(st, Next)
    case Seq(a, b) =>
      (match Intended(fuel, a, place, host, st)
       case Done(st1, Next) => Intended(fuel, b, place, host, st1)
       case other => other)
    case Cmd(words) =>
      var (w, failed) := host.exec(words, st.world, st.fail);
      Done(State(w, failed, failed), if failed && !host.ignore then Stopped else Next)
    case Break => Done(State(st.world, false, false), if place == Top then Next else Broke)
    case If(inverted, cond, thn, els) =>
      var (w, failed) := host.exec(cond, st.world, st.fail);
      var st1 := State(w, false, false);
      var branch :=
        if failed == inverted then Intended(fuel, thn, UnderIf(place), host, st1)
        else match els
          case None => Done(st1, Next)
          case Some(e) => Intended(fuel, e, UnderIf(place), host, st1);
      (match branch
       case Done(st2, sig) => if sig == Stopped then branch else Done(st2.(err := false), sig)
       case Timeout => Timeout)
    case Loop(until, cond, body) =>
      if fuel == 0 then Timeout
      else
        var (w, failed) := host.exec(cond, st.world, st.fail);
        var st1 := State(w, false, false);
        if failed != until then Done(st1, Next)
        else match Intended(fuel - 1, body, InLoop, host, st1)
          case Timeout => Timeout
          case Done(st2, Stopped) => Done(st2, Stopped)
          case Done(st2, Broke) => Done(st2.(err := false), Next)
          case Done(st2, Next) => Intended(fuel - 1, code, place, host, st2.(err := false))
  }

  // ----- what the line machine makes of them -----

  datatype Passage<+W> = Endless | Stop(st: State<W>) | Past(st: State<W>, mode: Mode)

  /** The effect of walking over the lines of `code`.  A loop met while the body of another
      loop is being passed over still runs: only a disabled `if` holds it back. */
  function Walk<W>(fuel: nat, mode: Mode, code: Code, place: Place, host: Host<W>, st: State<W>): (r: Passage<W>)
    ensures r.Past? && (mode != On || place != InLoop) ==> r.mode == mode
    ensures r.Past? && mode == On ==> r.mode != IfOff
    ensures mode == IfOff ==> r.Past? && r.st == st.(err := r.st.err)
    decreases fuel, code
  {
    match code
    case Skip => Past(st, mode)
    case Seq(a, b) =>
      (match Walk(fuel, mode, a, place, host, st)
       case Past(st1, mode1) => Walk(fuel, mode1, b, place, host, st1)
       case other => other)
    case Cmd(words) =>
      if mode != On then Past(st.(err := false), mode)
      else
        var (w, failed) := host.exec(words, st.world, st.fail);
        var st1 := State(w, failed, failed);
        if failed && !host.ignore then Stop(st1) else Past(st1, On)
    case Break =>
      if mode != On then Past(st.(err := false), mode)
      else Past(State(st.world, false, false), if place == InLoop then LoopOff else On)
    case If(inverted, cond, thn, els) =>
      if mode != On then Past(st.(err := false), mode)
      else
        var (w, failed) := host.exec(cond, st.world, st.fail);
        var st1 := State(w, false, false);
        var branch :=
          if failed == inverted then Walk(fuel, On, thn, UnderIf(place), host, st1)
          else match els
            case None => Past(st1, On)
            case Some(e) => Walk(fuel, On, e, UnderIf(place), host, st1);
        (match branch
         case Past(st2, _) => Past(st2.(err := false), On)
         case other => other)
    case Loop(until, cond, body) =>
      if mode == IfOff then Past(st.(err := false), mode)
      else if fuel == 0 then Endless
      else
        var (w, failed) := host.exec(cond, st.world, st.fail);
        var go := failed == until;
        match Walk(fuel - 1, if go then On else LoopOff, body, InLoop, host, State(w, false, false))
        case Past(st2, mode2) =>
          if mode2 == On then Walk(fuel - 1, mode, code, place, host, st2.(err := false))
          else Past(st2.(err := false), mode)
        case other => other
  }
}
