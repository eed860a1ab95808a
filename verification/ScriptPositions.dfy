/** Where the line machine stands in a structured script, and what a run has to show for a
    passage over a piece of it. */
module ScriptPositions {
  import opened Wrappers
  import opened NshParser
  import opened NshScript
  import opened ScriptSemantics

  /** The mode a parser is in between two pieces of code; none in the middle of a
      construct's head. */
  function ModeOf(np: Parser): Option<Mode> {
    if np.lost || np.IfState() == IfIf then None
    else if np.loops.Push? && (np.loops.top.state != LoopDo || np.loops.top.iendx > np.ifs.Height()) then None
    else Some(if !np.IfEnabled() then IfOff else if np.LoopEnabled() then On else LoopOff)
  }

  function PlaceOf(np: Parser): Place {
    if np.loops.Bottom? then Top
    else if np.loops.top.iendx == np.ifs.Height() then InLoop
    else InLoopIf
  }

  /** Free slots of a stack. */
  function Room<T>(stack: Stack<T>, depth: nat): nat {
    if stack.Height() + 1 < depth then depth - 1 - stack.Height() else 0
  }

  predicate Ready(np: Parser, mode: Mode, place: Place, code: Code) {
    && ModeOf(np) == Some(mode)
    && PlaceOf(np) == place
    && Shaped(mode, code, place, Room(np.ifs, np.depth), Room(np.loops, np.depth))
  }

  function StateOf<W>(c: Config<W>): State<W> {
    State(c.world, c.np.fail, c.err)
  }

  /** The parser after a passage: only the last status, and the enable bit of the loop that
      a break has ended, differ from before. */
  function After(np: Parser, mode: Mode, mode': Mode, fail: bool): Parser {
    if mode == On && mode' == LoopOff && np.loops.Push? then
      np.(fail := fail, loops := Push(np.loops.top.(enable := false), np.loops.below))
    else np.(fail := fail)
  }

  /** What a run that has come to `c` after `m` turns has to show at turn `n` for a passage
      over `len` lines. */
  ghost predicate Realises<W>(m: nat, c: Config<W>, n: nat, end: Config<W>, fuel: nat, mode: Mode, len: nat,
                              r: Passage<W>)
  {
    match r
    case Endless => n >= m + fuel && !end.halted && !end.np.lost
    case Stop(st) => end.halted && StateOf(end) == st && !end.np.lost
    case Past(st, mode') =>
      n >= m && end == Config(c.pc + len, After(c.np, mode, mode', st.fail), st.world, st.err, false)
  }
}
