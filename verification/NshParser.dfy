/** The NuttShell line machine: what one script line does to the parser's two stacks.

  A script has no syntax tree.  Each line is handled by `nsh_loop`, then by `nsh_itef`, and
  is then (if processing is enabled) executed; `nsh_saveresult` decides whether its exit
  status is a loop condition, an `if` condition or the last command status.

  Here the stacks are lists of their live entries, top first; slot 0 of the source's arrays,
  which never leaves its initial state, is the empty list.  The class in NshShell does the
  same steps in place on the arrays.  Configuration: loops, if-then-else-fi and file streams
  on, background commands off. */
module NshParser {
  import opened Wrappers

  /** One word of a line, classified by the string comparisons the parser makes. */
  datatype Word =
    | WhileW | UntilW | DoW | DoneW
    | IfW | ThenW | ElseW | FiW | BangW
    | BreakW
    | EmptyW
    | Text(text: string)

  type Line = seq<Word>

  datatype Stack<T> = Bottom | Push(top: T, below: Stack<T>) {
    function Height(): nat {
      if Bottom? then 0 else 1 + below.Height()
    }

    function Keep(n: nat): Stack<T>
      requires n <= Height()
      decreases this
    {
      if n == Height() then this else below.Keep(n)
    }
  }

  datatype IfState = IfNormal | IfIf | IfThen | IfElse
  datatype IfEntry = IfEntry(state: IfState, disabled: bool, cond: bool, inverted: bool)

  datatype LoopState = LoopNormal | LoopWhile | LoopUntil | LoopDo
  datatype LoopEntry = LoopEntry(state: LoopState, enable: bool, iendx: nat, top: nat)

  /** `depth` is CONFIG_NSH_NESTDEPTH.  `lost` is set when a break moves the if index up,
      onto a stale slot: these lists do not follow the arrays any further then. */
  datatype Parser = Parser(ifs: Stack<IfEntry>, loops: Stack<LoopEntry>, fail: bool, depth: nat, lost: bool) {

    function IfState(): IfState {
      if ifs.Bottom? then IfNormal else ifs.top.state
    }

    function LoopState(): LoopState {
      if loops.Bottom? then LoopNormal else loops.top.state
    }

    predicate AwaitsDo() {
      LoopState() == LoopWhile || LoopState() == LoopUntil
    }

    /** `nsh_loop_enabled`. */
    predicate LoopEnabled() {
      LoopState() == LoopDo ==> loops.top.enable
    }

    /** `nsh_itef_enabled`. */
    predicate IfEnabled() {
      ifs.Push? ==>
        && !ifs.top.disabled
        && (ifs.top.state == IfThen ==> !ifs.top.cond)
        && (ifs.top.state == IfElse ==> ifs.top.cond)
    }

    /** `nsh_cmdenabled`. */
    predicate CmdEnabled() {
      LoopEnabled() && IfEnabled()
    }
  }

  /** What a control stage made of a line: the words left, or a rejection. */
  datatype Stage = Stage(np: Parser, line: Line, seek: Option<nat>) | Reject(np: Parser)

  function LoopReject(np: Parser): Stage {
    Reject(np.(loops := Bottom))
  }

  function EnterLoop(np: Parser, rest: Line, state: LoopState, offs: nat, canLoop: bool): Stage {
    if rest == [] || rest[0] == EmptyW then LoopReject(np)
    else if np.IfState() == IfIf || np.AwaitsDo() || !canLoop then LoopReject(np)
    else if np.loops.Height() + 1 >= np.depth then LoopReject(np)
    else
      var entry := LoopEntry(state, np.CmdEnabled(), np.ifs.Height(), offs);
      Stage(np.(loops := Push(entry, np.loops)), rest, None)
  }

  /** `nsh_loop`: handle a leading while, until, do or done.  `offs` is the file position
      of the line; `canLoop` says that there is a stream whose position is known. */
  function LoopStage(np: Parser, line: Line, offs: nat, canLoop: bool): Stage {
    if line == [] then Stage(np, line, None)
    else match line[0]
      case WhileW => EnterLoop(np, line[1..], LoopWhile, offs, canLoop)
      case UntilW => EnterLoop(np, line[1..], LoopUntil, offs, canLoop)
      case DoW =>
        if !np.AwaitsDo() then LoopReject(np)
        else Stage(np.(loops := Push(np.loops.top.(state := LoopDo), np.loops.below)), line[1..], None)
      case DoneW =>
        if |line| > 1 || np.LoopState() != LoopDo then LoopReject(np)
        else Stage(np.(loops := np.loops.below), [],
                   if np.loops.top.enable then Some(np.loops.top.top) else None)
      case _ =>
        if np.AwaitsDo() then LoopReject(np) else Stage(np, line, None)
  }

  function IfReject(np: Parser): Stage {
    Reject(np.(ifs := Bottom))
  }

  function EnterIf(np: Parser, rest: Line, inverted: bool): Stage {
    if np.IfState() == IfIf || np.ifs.Height() + 1 >= np.depth then IfReject(np)
    else Stage(np.(ifs := Push(IfEntry(IfIf, !np.CmdEnabled(), false, inverted), np.ifs)), rest, None)
  }

  /** `nsh_itef`: handle a leading if, then, else or fi. */
  function IfStage(np: Parser, line: Line): Stage {
    if line == [] then Stage(np, line, None)
    else match line[0]
      case IfW =>
        if |line| < 2 || line[1] == EmptyW then IfReject(np)
        else if line[1] != BangW then EnterIf(np, line[1..], false)
        else if |line| < 3 || line[2] == EmptyW then IfReject(np)
        else EnterIf(np, line[2..], true)
      case ThenW =>
        if np.IfState() != IfIf then IfReject(np)
        else Stage(np.(ifs := Push(np.ifs.top.(state := IfThen), np.ifs.below)), line[1..], None)
      case ElseW =>
        if np.IfState() != IfThen then IfReject(np)
        else Stage(np.(ifs := Push(np.ifs.top.(state := IfElse), np.ifs.below)), line[1..], None)
      case FiW =>
        if |line| > 1 || (np.IfState() != IfThen && np.IfState() != IfElse) then IfReject(np)
        else Stage(np.(ifs := np.ifs.below), [], None)
      case _ =>
        if np.IfState() == IfIf then IfReject(np) else Stage(np, line, None)
  }

  /** `nsh_saveresult`: a pending loop condition takes the status first, then a pending
      `if` condition; otherwise it is the status of the line.  Also returns the line's error. */
  function SaveResult(np: Parser, failed: bool): (Parser, bool) {
    if np.LoopState() == LoopWhile then
      (np.(loops := Push(np.loops.top.(enable := !failed), np.loops.below), fail := false), false)
    else if np.LoopState() == LoopUntil then
      (np.(loops := Push(np.loops.top.(enable := failed), np.loops.below), fail := false), false)
    else if np.IfState() == IfIf then
      (np.(ifs := Push(np.ifs.top.(cond := np.ifs.top.inverted != failed), np.ifs.below), fail := false), false)
    else
      (np.(fail := failed), failed)
  }

  /** `cmd_break`: leave the ifs opened since the loop began and stop processing up to `done`. */
  function BreakLoop(np: Parser): Parser {
    if np.LoopState() != LoopDo then np
    else
      var loops := Push(np.loops.top.(enable := false), np.loops.below);
      if np.loops.top.iendx > np.ifs.Height() then np.(loops := loops, lost := true)
      else np.(loops := loops, ifs := np.ifs.Keep(np.loops.top.iendx))
  }

  /** What a command does to everything outside the parser: it sees the words, the world
      and the last status (`$?`), and yields the new world and whether it failed. */
  type Exec<!W> = (Line, W, bool) -> (W, bool)

  /** `nsh_execute` in the foreground: `break` (which takes no arguments) is the one
      command that reaches back into the parser. */
  function Execute<W>(np: Parser, line: Line, exec: Exec<W>, world: W): (Parser, W, bool)
    requires line != []
  {
    if line[0] == BreakW then
      if |line| == 1 then (BreakLoop(np), world, false) else (np, world, true)
    else
      var (world', failed) := exec(line, world, np.fail);
      (np, world', failed)
  }

  datatype LineResult<+W> = LineResult(np: Parser, world: W, err: bool, seek: Option<nat>)

  function Refuse<W>(np: Parser, world: W, seek: Option<nat>): LineResult<W> {
    var (np', err) := SaveResult(np, true);
    LineResult(np', world, err, seek)
  }

  function FinishLine<W>(np: Parser, line: Line, seek: Option<nat>, exec: Exec<W>, world: W): LineResult<W> {
    match IfStage(np, line)
    case Reject(np1) => Refuse(np1, world, seek)
    case Stage(np1, line1, _) =>
      // An empty line or a skipped command is no error and leaves the last status alone.
      if line1 == [] || !np1.CmdEnabled() then LineResult(np1, world, false, seek)
      else
        var (np2, world', failed) := Execute(np1, line1, exec, world);
        var (np3, err) := SaveResult(np2, failed);
        LineResult(np3, world', err, seek)
  }

  /** `nsh_parse_command` for one line. */
  function ParseLine<W>(np: Parser, line: Line, offs: nat, canLoop: bool, exec: Exec<W>, world: W): LineResult<W> {
    match LoopStage(np, line, offs, canLoop)
    case Reject(np1) => Refuse(np1, world, None)
    case Stage(np1, line1, seek) => FinishLine(np1, line1, seek, exec, world)
  }
}
