/** The line machine on all the slots of its two stacks, live or not, with an index into each: what
    the source's arrays hold after any line whatsoever.  The lists of NshParser are the live slots,
    as long as no break has moved the if index up, onto slots that are no longer live. */
module NshSlots {
  import opened Wrappers
  import opened NshParser
  import opened NshScript

  datatype Slots = Slots(ie: seq<IfEntry>, iendx: nat, lp: seq<LoopEntry>, lpndx: nat, fail: bool)

  /** Holds after any sequence of lines: indices in range, slot 0 of each stack normal, every live
      loop slot below the top in its body, the top one in a loop. */
  predicate Sound(t: Slots) {
    && |t.ie| == |t.lp| && t.iendx < |t.ie| && t.lpndx < |t.lp|
    && t.ie[0].state == IfNormal && !t.ie[0].disabled
    && t.lp[0].state == LoopNormal
    && (forall k :: 1 <= k < t.lpndx ==> t.lp[k].state == LoopDo)
    && (t.lpndx >= 1 ==> t.lp[t.lpndx].state != LoopNormal)
    && (forall k :: 0 <= k < |t.lp| ==> t.lp[k].iendx < |t.ie|)
  }

  type Table = t: Slots | Sound(t)
    witness Slots([IfEntry(IfNormal, false, false, false)], 0, [LoopEntry(LoopNormal, false, 0, 0)], 0, false)

  function IfTop(t: Table): IfEntry {
    t.ie[t.iendx]
  }

  function LoopTop(t: Table): LoopEntry {
    t.lp[t.lpndx]
  }

  lemma TopInside(t: Table)
    ensures IfTop(t).state != IfNormal ==> t.iendx >= 1
    ensures LoopTop(t).iendx < |t.ie| && (LoopTop(t).state != LoopNormal ==> t.lpndx >= 1)
  {
  }

  predicate Enabled(t: Table) {
    && (LoopTop(t).state == LoopDo ==> LoopTop(t).enable)
    && !IfTop(t).disabled
    && (IfTop(t).state == IfThen ==> !IfTop(t).cond)
    && (IfTop(t).state == IfElse ==> IfTop(t).cond)
  }

  predicate AwaitsDo(t: Table) {
    LoopTop(t).state == LoopWhile || LoopTop(t).state == LoopUntil
  }

  datatype Outcome = Outcome(t: Table, line: Line, seek: Option<nat>) | Refused(t: Table)

  function NoLoops(t: Table): Table {
    t.(lpndx := 0, lp := t.lp[0 := t.lp[0].(state := LoopNormal, enable := true, top := 0)])
  }

  function NoIfs(t: Table): Table {
    t.(iendx := 0, ie := t.ie[0 := IfEntry(IfNormal, false, false, false)])
  }

  function SetLoopTop(t: Table, entry: LoopEntry): Table
    requires t.lpndx >= 1 && entry.state != LoopNormal && entry.iendx < |t.ie|
  {
    t.(lp := t.lp[t.lpndx := entry])
  }

  function SetIfTop(t: Table, entry: IfEntry): Table
    requires t.iendx >= 1
  {
    t.(ie := t.ie[t.iendx := entry])
  }

  function PushLoop(t: Table, entry: LoopEntry): Table
    requires t.lpndx + 1 < |t.lp| && entry.state != LoopNormal && entry.iendx < |t.ie| && !AwaitsDo(t)
  {
    t.(lpndx := t.lpndx + 1, lp := t.lp[t.lpndx + 1 := entry])
  }

  function PopLoop(t: Table): Table
    requires LoopTop(t).state == LoopDo
  {
    t.(lpndx := t.lpndx - 1, lp := t.lp[t.lpndx := LoopTop(t).(state := LoopNormal, enable := true)])
  }

  function EnterLoop(t: Table, rest: Line, state: LoopState, offs: nat, canLoop: bool): Outcome
    requires state != LoopNormal
  {
    if rest == [] || rest[0] == EmptyW || IfTop(t).state == IfIf || AwaitsDo(t) || !canLoop || t.lpndx >= |t.lp| - 1
    then Refused(NoLoops(t))
    else Outcome(PushLoop(t, LoopEntry(state, Enabled(t), t.iendx, offs)), rest, None)
  }

  function StartBody(t: Table, rest: Line): Outcome {
    if AwaitsDo(t) then Outcome(SetLoopTop(t, LoopTop(t).(state := LoopDo)), rest, None) else Refused(NoLoops(t))
  }

  function EndLoop(t: Table, line: Line): Outcome {
    if |line| > 1 || LoopTop(t).state != LoopDo then Refused(NoLoops(t))
    else Outcome(PopLoop(t), [], if LoopTop(t).enable then Some(LoopTop(t).top) else None)
  }

  /** `nsh_loop`. */
  function LoopLine(t: Table, line: Line, offs: nat, canLoop: bool): Outcome {
    if line == [] then Outcome(t, line, None)
    else match line[0]
      case WhileW => EnterLoop(t, line[1..], LoopWhile, offs, canLoop)
      case UntilW => EnterLoop(t, line[1..], LoopUntil, offs, canLoop)
      case DoW => StartBody(t, line[1..])
      case DoneW => EndLoop(t, line)
      case _ => if AwaitsDo(t) then Refused(NoLoops(t)) else Outcome(t, line, None)
  }

  function EnterIf(t: Table, rest: Line, inverted: bool): Outcome {
    if IfTop(t).state == IfIf || t.iendx >= |t.ie| - 1 then Refused(NoIfs(t))
    else
      var entry := IfEntry(IfIf, !Enabled(t), false, inverted);
      Outcome(t.(iendx := t.iendx + 1, ie := t.ie[t.iendx + 1 := entry]), rest, None)
  }

  function Advance(t: Table, rest: Line, from: IfState, to: IfState): Outcome
    requires from != IfNormal
  {
    if IfTop(t).state != from then Refused(NoIfs(t)) else Outcome(SetIfTop(t, IfTop(t).(state := to)), rest, None)
  }

  function LeaveIf(t: Table): Table
    requires IfTop(t).state != IfNormal
  {
    t.(iendx := t.iendx - 1)
  }

  function EndIf(t: Table, line: Line): Outcome {
    if |line| > 1 || (IfTop(t).state != IfThen && IfTop(t).state != IfElse) then Refused(NoIfs(t))
    else Outcome(LeaveIf(t), [], None)
  }

  /** `nsh_itef`. */
  function IfLine(t: Table, line: Line): Outcome {
    if line == [] then Outcome(t, line, None)
    else match line[0]
      case IfW =>
        if |line| < 2 || line[1] == EmptyW then Refused(NoIfs(t))
        else if line[1] != BangW then EnterIf(t, line[1..], false)
        else if |line| < 3 || line[2] == EmptyW then Refused(NoIfs(t))
        else EnterIf(t, line[2..], true)
      case ThenW => Advance(t, line[1..], IfIf, IfThen)
      case ElseW => Advance(t, line[1..], IfThen, IfElse)
      case FiW => EndIf(t, line)
      case _ => if IfTop(t).state == IfIf then Refused(NoIfs(t)) else Outcome(t, line, None)
  }

  /** `nsh_saveresult`. */
  function Save(t: Table, failed: bool): (Table, bool) {
    if LoopTop(t).state == LoopWhile then (SetLoopTop(t, LoopTop(t).(enable := !failed)).(fail := false), false)
    else if LoopTop(t).state == LoopUntil then (SetLoopTop(t, LoopTop(t).(enable := failed)).(fail := false), false)
    else if IfTop(t).state == IfIf then
      (SetIfTop(t, IfTop(t).(cond := IfTop(t).inverted != failed)).(fail := false), false)
    else (t.(fail := failed), failed)
  }

  /** `cmd_break`: the if index becomes what it was when the loop began, be it lower or higher. */
  function Break(t: Table): Table {
    if LoopTop(t).state != LoopDo then t
    else SetLoopTop(t, LoopTop(t).(enable := false)).(iendx := LoopTop(t).iendx)
  }

  function Execute<W>(t: Table, line: Line, exec: Exec<W>, world: W): (Table, W, bool)
    requires line != []
  {
    if line[0] == BreakW then
      if |line| == 1 then (Break(t), world, false) else (t, world, true)
    else
      var (world', failed) := exec(line, world, t.fail);
      (t, world', failed)
  }

  datatype Parsed<+W> = Parsed(t: Table, world: W, err: bool, seek: Option<nat>)

  function Refuse<W>(t: Table, world: W, seek: Option<nat>): Parsed<W> {
    var (t', err) := Save(t, true);
    Parsed(t', world, err, seek)
  }

  function Finish<W>(t: Table, line: Line, seek: Option<nat>, exec: Exec<W>, world: W): Parsed<W> {
    match IfLine(t, line)
    case Refused(t1) => Refuse(t1, world, seek)
    case Outcome(t1, line1, _) =>
      if line1 == [] || !Enabled(t1) then Parsed(t1, world, false, seek)
      else
        var (t2, world', failed) := Execute(t1, line1, exec, world);
        var (t3, err) := Save(t2, failed);
        Parsed(t3, world', err, seek)
  }

  /** `nsh_parse_command` for one line. */
  function Parse<W>(t: Table, line: Line, offs: nat, canLoop: bool, exec: Exec<W>, world: W): Parsed<W> {
    match LoopLine(t, line, offs, canLoop)
    case Refused(t1) => Refuse(t1, world, None)
    case Outcome(t1, line1, seek) => Finish(t1, line1, seek, exec, world)
  }

  /** A run of the script loop, with the place in the script, the result and whether it has ended. */
  datatype Spot<+W> = Spot(pc: nat, t: Table, world: W, err: bool, halted: bool)

  function Turn<W>(script: seq<Line>, host: Host<W>, p: Spot<W>): Spot<W> {
    if p.halted then p
    else if p.pc >= |script| then p.(halted := true)
    else
      var r := Parse(p.t, script[p.pc], p.pc, host.tells, host.exec, p.world);
      var next := if r.seek.Some? && host.seeks then r.seek.value else p.pc + 1;
      Spot(next, r.t, r.world, r.err, r.err && !host.ignore)
  }

  function Turns<W>(n: nat, script: seq<Line>, host: Host<W>, p: Spot<W>): Spot<W> {
    if n == 0 then p else Turn(script, host, Turns(n - 1, script, host, p))
  }

  // ----- the live slots -----

  /** The live slots 1..n, top first. */
  function Live<T>(slots: seq<T>, n: nat): (stack: Stack<T>)
    requires n < |slots|
    ensures stack.Height() == n
  {
    if n == 0 then Bottom else Push(slots[n], Live(slots, n - 1))
  }

  lemma {:induction false} LiveFrame<T>(a: seq<T>, b: seq<T>, n: nat)
    requires n < |a| && n < |b| && forall k :: 1 <= k <= n ==> a[k] == b[k]
    ensures Live(a, n) == Live(b, n)
  {
    if n > 0 {
      LiveFrame(a, b, n - 1);
    }
  }

  lemma {:induction false} LiveKeep<T>(a: seq<T>, n: nat, k: nat)
    requires k <= n < |a|
    ensures Live(a, n).Keep(k) == Live(a, k)
  {
    if k < n {
      LiveKeep(a, n - 1, k);
    }
  }

  function View(t: Table): Parser {
    Parser(Live(t.ie, t.iendx), Live(t.lp, t.lpndx), t.fail, |t.ie|, false)
  }

  lemma EnabledView(t: Table)
    ensures Enabled(t) == View(t).CmdEnabled()
    ensures IfTop(t).state == View(t).IfState() && LoopTop(t).state == View(t).LoopState()
  {
  }

  lemma ResetView(t: Table)
    ensures View(NoLoops(t)) == View(t).(loops := Bottom) && View(NoIfs(t)) == View(t).(ifs := Bottom)
  {
  }

  lemma LoopTopView(t: Table, entry: LoopEntry)
    requires t.lpndx >= 1 && entry.state != LoopNormal && entry.iendx < |t.ie|
    ensures View(SetLoopTop(t, entry)) == View(t).(loops := Push(entry, View(t).loops.below))
  {
    LiveFrame(t.lp[t.lpndx := entry], t.lp, t.lpndx - 1);
  }

  lemma IfTopView(t: Table, entry: IfEntry)
    requires t.iendx >= 1
    ensures View(SetIfTop(t, entry)) == View(t).(ifs := Push(entry, View(t).ifs.below))
  {
    LiveFrame(t.ie[t.iendx := entry], t.ie, t.iendx - 1);
  }

  lemma PushLoopView(t: Table, entry: LoopEntry)
    requires t.lpndx + 1 < |t.lp| && entry.state != LoopNormal && entry.iendx < |t.ie| && !AwaitsDo(t)
    ensures View(PushLoop(t, entry)) == View(t).(loops := Push(entry, View(t).loops))
  {
    LiveFrame(t.lp[t.lpndx + 1 := entry], t.lp, t.lpndx);
  }

  lemma PopLoopView(t: Table)
    requires LoopTop(t).state == LoopDo
    ensures View(PopLoop(t)) == View(t).(loops := View(t).loops.below)
  {
    LiveFrame(PopLoop(t).lp, t.lp, t.lpndx - 1);
  }

  /** What a stage of the slots comes to on the lists. */
  function Seen(o: Outcome): Stage {
    match o
    case Outcome(t, line, seek) => Stage(View(t), line, seek)
    case Refused(t) => Reject(View(t))
  }

  lemma ViewParts(t: Table)
    ensures View(t).ifs.Height() == t.iendx && View(t).loops.Height() == t.lpndx && View(t).depth == |t.ie|
    ensures t.iendx >= 1 ==> View(t).ifs.Push? && View(t).ifs.top == IfTop(t)
    ensures t.lpndx >= 1 ==> View(t).loops.Push? && View(t).loops.top == LoopTop(t)
    ensures View(t).fail == t.fail && !View(t).lost
  {
  }

  lemma EnterLoopView(t: Table, rest: Line, state: LoopState, offs: nat, canLoop: bool)
    requires state != LoopNormal
    ensures Seen(EnterLoop(t, rest, state, offs, canLoop)) == NshParser.EnterLoop(View(t), rest, state, offs, canLoop)
  {
    hide View;
    ViewParts(t);
    EnabledView(t);
    ResetView(t);
    if EnterLoop(t, rest, state, offs, canLoop).Outcome? {
      PushLoopView(t, LoopEntry(state, Enabled(t), t.iendx, offs));
    }
  }

  lemma LoopLineView(t: Table, line: Line, offs: nat, canLoop: bool)
    ensures Seen(LoopLine(t, line, offs, canLoop)) == LoopStage(View(t), line, offs, canLoop)
  {
    hide View, NshParser.EnterLoop, EnterLoop;
    ViewParts(t);
    EnabledView(t);
    ResetView(t);
    if line != [] {
      match line[0]
      case WhileW => EnterLoopView(t, line[1..], LoopWhile, offs, canLoop);
      case UntilW => EnterLoopView(t, line[1..], LoopUntil, offs, canLoop);
      case DoW =>
        if AwaitsDo(t) {
          LoopTopView(t, LoopTop(t).(state := LoopDo));
        }
      case DoneW =>
        if LoopTop(t).state == LoopDo {
          PopLoopView(t);
        }
      case _ =>
    }
  }

  lemma EnterIfView(t: Table, rest: Line, inverted: bool)
    ensures Seen(EnterIf(t, rest, inverted)) == NshParser.EnterIf(View(t), rest, inverted)
  {
    EnabledView(t);
    ResetView(t);
    if EnterIf(t, rest, inverted).Outcome? {
      LiveFrame(EnterIf(t, rest, inverted).t.ie, t.ie, t.iendx);
    }
  }

  lemma AdvanceView(t: Table, rest: Line, from: IfState, to: IfState)
    requires from != IfNormal
    ensures Seen(Advance(t, rest, from, to)) ==
            if View(t).IfState() != from then Reject(View(t).(ifs := Bottom))
            else Stage(View(t).(ifs := Push(View(t).ifs.top.(state := to), View(t).ifs.below)), rest, None)
  {
    hide View;
    ViewParts(t);
    EnabledView(t);
    ResetView(t);
    if IfTop(t).state == from {
      IfTopView(t, IfTop(t).(state := to));
    }
  }

  lemma LeaveIfView(t: Table)
    requires IfTop(t).state != IfNormal
    ensures View(LeaveIf(t)) == View(t).(ifs := View(t).ifs.below)
  {
  }

  lemma EndIfView(t: Table)
    ensures Seen(EndIf(t, [FiW])) == IfStage(View(t), [FiW])
  {
    hide View;
    ViewParts(t);
    EnabledView(t);
    ResetView(t);
    if IfTop(t).state == IfThen || IfTop(t).state == IfElse {
      LeaveIfView(t);
    }
  }

  lemma IfHeadView(t: Table, line: Line)
    requires line != [] && line[0] == IfW
    ensures Seen(IfLine(t, line)) == IfStage(View(t), line)
  {
    hide View, NshParser.EnterIf, EnterIf, Advance, EndIf, NoIfs;
    ResetView(t);
    if |line| >= 3 && line[1] == BangW {
      EnterIfView(t, line[2..], true);
    } else {
      EnterIfView(t, line[1..], false);
    }
  }

  lemma IfLineView(t: Table, line: Line)
    ensures Seen(IfLine(t, line)) == IfStage(View(t), line)
  {
    hide View, NshParser.EnterIf, EnterIf, Advance, NoIfs;
    EnabledView(t);
    ResetView(t);
    if line != [] {
      match line[0]
      case IfW => IfHeadView(t, line);
      case ThenW => AdvanceView(t, line[1..], IfIf, IfThen);
      case ElseW => AdvanceView(t, line[1..], IfThen, IfElse);
      case FiW =>
        if |line| == 1 {
          EndIfView(t);
        }
      case _ =>
    }
  }

  lemma FailView(t: Table, fail: bool)
    ensures View(t.(fail := fail)) == View(t).(fail := fail)
  {
  }

  lemma SaveView(t: Table, failed: bool)
    ensures var (t', err) := Save(t, failed); (View(t'), err) == SaveResult(View(t), failed)
  {
    hide View;
    ViewParts(t);
    EnabledView(t);
    FailView(t, false);
    FailView(t, failed);
    if LoopTop(t).state == LoopWhile {
      LoopTopView(t, LoopTop(t).(enable := !failed));
      FailView(SetLoopTop(t, LoopTop(t).(enable := !failed)), false);
    } else if LoopTop(t).state == LoopUntil {
      LoopTopView(t, LoopTop(t).(enable := failed));
      FailView(SetLoopTop(t, LoopTop(t).(enable := failed)), false);
    } else if IfTop(t).state == IfIf {
      IfTopView(t, IfTop(t).(cond := IfTop(t).inverted != failed));
      FailView(SetIfTop(t, IfTop(t).(cond := IfTop(t).inverted != failed)), false);
    }
  }

  lemma BreakView(t: Table)
    ensures !BreakLoop(View(t)).lost ==> View(Break(t)) == BreakLoop(View(t))
  {
    if LoopTop(t).state == LoopDo {
      LoopTopView(t, LoopTop(t).(enable := false));
      if LoopTop(t).iendx <= t.iendx {
        LiveKeep(t.ie, t.iendx, LoopTop(t).iendx);
      }
    }
  }

  // ----- once the lists have lost the slots, they do not find them again -----

  lemma SaveKeepsLost(np: Parser, failed: bool)
    ensures SaveResult(np, failed).0.lost == np.lost
  {
  }

  lemma LoopKeepsLost(np: Parser, line: Line, offs: nat, canLoop: bool)
    ensures LoopStage(np, line, offs, canLoop).np.lost == np.lost
  {
  }

  lemma IfKeepsLost(np: Parser, line: Line)
    ensures IfStage(np, line).np.lost == np.lost
  {
  }

  lemma FinishKeepsLost<W>(np: Parser, line: Line, seek: Option<nat>, exec: Exec<W>, world: W)
    requires np.lost
    ensures FinishLine(np, line, seek, exec, world).np.lost
  {
    hide IfStage, SaveResult;
    IfKeepsLost(np, line);
    match IfStage(np, line)
    case Reject(np1) => SaveKeepsLost(np1, true);
    case Stage(np1, line1, _) =>
      if line1 != [] {
        var (np2, w, failed) := NshParser.Execute(np1, line1, exec, world);
        SaveKeepsLost(np2, failed);
      }
  }

  lemma LostStays<W>(script: seq<Line>, host: Host<W>, c: Config<W>)
    requires c.np.lost
    ensures Step(script, host, c).np.lost
  {
    hide LoopStage, FinishLine, SaveResult;
    if !c.halted && c.pc < |script| {
      LoopKeepsLost(c.np, script[c.pc], c.pc, host.tells);
      match LoopStage(c.np, script[c.pc], c.pc, host.tells)
      case Reject(np) => SaveKeepsLost(np, true);
      case Stage(np, line, seek) => FinishKeepsLost(np, line, seek, host.exec, c.world);
    }
  }

  lemma {:induction false} LostForGood<W>(n: nat, script: seq<Line>, host: Host<W>, c: Config<W>)
    requires c.np.lost
    ensures Run(n, script, host, c).np.lost
  {
    hide Step;
    if n > 0 {
      LostStays(script, host, c);
      RunUnfold(n - 1, script, host, c);
      LostForGood(n - 1, script, host, Step(script, host, c));
    }
  }

  // ----- a whole line, a whole run -----

  /** The slots' version of a line agrees with the lists' in all but the parser and the error, and in
      those too unless the lists have lost the slots. */
  ghost predicate Agrees<W>(r: Parsed<W>, l: LineResult<W>) {
    r.world == l.world && r.seek == l.seek && (!l.np.lost ==> View(r.t) == l.np && r.err == l.err)
  }

  lemma RefuseView<W>(t: Table, world: W, seek: Option<nat>)
    ensures Agrees(Refuse(t, world, seek), NshParser.Refuse(View(t), world, seek))
  {
    hide View, Save, SaveResult;
    SaveView(t, true);
  }

  lemma ExecuteView<W>(t: Table, line: Line, exec: Exec<W>, world: W)
    requires line != []
    ensures var (t', w, f) := Execute(t, line, exec, world);
            var (np, w', f') := NshParser.Execute(View(t), line, exec, world);
            w == w' && f == f' && (!np.lost ==> View(t') == np)
  {
    hide View, Break, BreakLoop;
    ViewParts(t);
    BreakView(t);
  }

  lemma FinishView<W>(t: Table, line: Line, seek: Option<nat>, exec: Exec<W>, world: W)
    ensures Agrees(Finish(t, line, seek, exec, world), FinishLine(View(t), line, seek, exec, world))
  {
    hide View, Save, SaveResult, IfLine, IfStage, Execute, NshParser.Execute, Refuse, NshParser.Refuse;
    IfLineView(t, line);
    match IfLine(t, line)
    case Refused(t1) => RefuseView(t1, world, seek);
    case Outcome(t1, line1, _) =>
      EnabledView(t1);
      if line1 != [] && Enabled(t1) {
        ExecuteView(t1, line1, exec, world);
        var (t2, w, failed) := Execute(t1, line1, exec, world);
        SaveView(t2, failed);
        SaveKeepsLost(NshParser.Execute(View(t1), line1, exec, world).0, failed);
      } else {
        ViewParts(t1);
      }
  }

  lemma ParseView<W>(t: Table, line: Line, offs: nat, canLoop: bool, exec: Exec<W>, world: W)
    ensures Agrees(Parse(t, line, offs, canLoop, exec, world), ParseLine(View(t), line, offs, canLoop, exec, world))
  {
    hide View, LoopLine, LoopStage, Finish, FinishLine, Refuse, NshParser.Refuse;
    LoopLineView(t, line, offs, canLoop);
    match LoopLine(t, line, offs, canLoop)
    case Refused(t1) => RefuseView(t1, world, None);
    case Outcome(t1, line1, seek) => FinishView(t1, line1, seek, exec, world);
  }

  /** A run of the slots is the run of the lists, unless that has lost them. */
  ghost predicate Follows<W>(p: Spot<W>, c: Config<W>) {
    c.np.lost || c == Config(p.pc, View(p.t), p.world, p.err, p.halted)
  }

  lemma TurnFollows<W>(script: seq<Line>, host: Host<W>, p: Spot<W>, c: Config<W>)
    requires Follows(p, c)
    ensures Follows(Turn(script, host, p), Step(script, host, c))
  {
    hide View, Parse, ParseLine;
    if c.np.lost {
      LostStays(script, host, c);
    } else if !p.halted && p.pc < |script| {
      ParseView(p.t, script[p.pc], p.pc, host.tells, host.exec, p.world);
    }
  }

  lemma {:induction false} TurnsFollow<W>(n: nat, script: seq<Line>, host: Host<W>, p: Spot<W>, c: Config<W>)
    requires Follows(p, c)
    ensures Follows(Turns(n, script, host, p), Run(n, script, host, c))
  {
    hide Follows, Turn, Step;
    if n > 0 {
      TurnsFollow(n - 1, script, host, p, c);
      TurnFollows(script, host, Turns(n - 1, script, host, p), Run(n - 1, script, host, c));
      RunAdd(n - 1, 1, script, host, c);
      RunUnfold(0, script, host, Run(n - 1, script, host, c));
    }
  }
}
