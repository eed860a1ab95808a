/** What one line may hold: commands on the line of their keyword, and keywords out of place.  All of
    it is about every state of the slots, so it holds of the arrays after any lines whatsoever. */
module NshLines {
  import opened Wrappers
  import opened NshParser
  import opened NshScript
  import opened NshSlots

  predicate IsLoopWord(word: Word) {
    word == WhileW || word == UntilW || word == DoW || word == DoneW
  }

  predicate IsIfWord(word: Word) {
    word == IfW || word == ThenW || word == ElseW || word == FiW
  }

  /** The words that a command may stand behind, where they are in place. */
  predicate Opens(t: Table, word: Word) {
    match word
    case DoW => AwaitsDo(t)
    case ThenW => !AwaitsDo(t) && IfTop(t).state == IfIf
    case ElseW => !AwaitsDo(t) && IfTop(t).state == IfThen
    case _ => false
  }

  /** What may stand behind them: anything but a keyword that is looked for only at the beginning of
      a line. */
  predicate Behind(word: Word, rest: Line) {
    rest == [] || (!IsLoopWord(rest[0]) && (word == DoW || !IsIfWord(rest[0])))
  }

  /** The slots once such a word has been taken. */
  function Opened(t: Table, word: Word): (t': Table)
    requires Opens(t, word)
    ensures !AwaitsDo(t') && (IfTop(t').state == IfIf ==> word == DoW && IfTop(t).state == IfIf) && t'.fail == t.fail
  {
    match word
    case DoW => SetLoopTop(t, LoopTop(t).(state := LoopDo))
    case ThenW => SetIfTop(t, IfTop(t).(state := IfThen))
    case ElseW => SetIfTop(t, IfTop(t).(state := IfElse))
  }

  /** Taking it leaves what stands behind it to be handled as it is. */
  lemma WordTaken<W>(t: Table, word: Word, rest: Line, offs: nat, canLoop: bool, exec: Exec<W>, world: W)
    requires Opens(t, word)
    ensures Parse(t, [word] + rest, offs, canLoop, exec, world) ==
            if word == DoW then Finish(Opened(t, word), rest, None, exec, world)
            else if rest == [] || !Enabled(Opened(t, word)) then Parsed(Opened(t, word), world, false, None)
            else
              var (t1, world', failed) := NshSlots.Execute(Opened(t, word), rest, exec, world);
              var (t2, err) := Save(t1, failed);
              Parsed(t2, world', err, None)
  {
    hide Save, NshSlots.Execute, Enabled, Sound, SetLoopTop, SetIfTop;
    assert ([word] + rest)[1..] == rest;
  }

  lemma PlainLine<W>(t: Table, line: Line, offs: nat, canLoop: bool, exec: Exec<W>, world: W)
    requires !AwaitsDo(t) && (line == [] || !IsLoopWord(line[0]))
    ensures Parse(t, line, offs, canLoop, exec, world) == Finish(t, line, None, exec, world)
  {
    hide Finish;
  }

  /** A command on the line of its `then`, `else` or `do` does what it does on a line of its own. */
  lemma BehindKeyword<W>(t: Table, word: Word, rest: Line, offs: nat, offs': nat, canLoop: bool, exec: Exec<W>,
                         world: W)
    requires Opens(t, word) && Behind(word, rest)
    ensures var r := Parse(t, [word], offs, canLoop, exec, world);
            && r.world == world && !r.err && r.seek == None
            && Parse(t, [word] + rest, offs, canLoop, exec, world) == Parse(r.t, rest, offs', canLoop, exec, world)
  {
    hide Save, NshSlots.Execute, Enabled, Sound, Parse, Opened;
    assert [word] + [] == [word];
    WordTaken(t, word, [], offs, canLoop, exec, world);
    WordTaken(t, word, rest, offs, canLoop, exec, world);
    PlainLine(Opened(t, word), rest, offs', canLoop, exec, world);
  }

  lemma SameOffset<W>(t: Table, word: Word, offs: nat, offs': nat, canLoop: bool, exec: Exec<W>, world: W)
    requires Opens(t, word)
    ensures Parse(t, [word], offs, canLoop, exec, world) == Parse(t, [word], offs', canLoop, exec, world)
  {
    hide Save, NshSlots.Execute, Enabled;
  }

  /** Only `done` moves the place in the file, and only from the body of a loop that goes on. */
  lemma NoSeek<W>(t: Table, line: Line, offs: nat, canLoop: bool, exec: Exec<W>, world: W)
    ensures Parse(t, line, offs, canLoop, exec, world).seek ==
            if line == [DoneW] && LoopTop(t).state == LoopDo && LoopTop(t).enable then Some(LoopTop(t).top) else None
  {
    hide Save, NshSlots.Execute, Enabled, IfLine;
  }

  /** So a script may be written either way: one turn here is two turns there. */
  lemma InTwoTurns<W>(script: seq<Line>, script': seq<Line>, host: Host<W>, p: Spot<W>, pc: nat, word: Word, rest: Line)
    requires p.pc < |script| && script[p.pc] == [word] + rest && !p.halted
    requires pc + 1 < |script'| && script'[pc] == [word] && script'[pc + 1] == rest
    requires Opens(p.t, word) && Behind(word, rest)
    ensures var q := NshSlots.Turn(script, host, p);
            var q' := NshSlots.Turn(script', host, NshSlots.Turn(script', host, p.(pc := pc)));
            q.pc == p.pc + 1 && q' == q.(pc := pc + 2)
  {
    hide Parse;
    BehindKeyword(p.t, word, rest, p.pc, pc + 1, host.tells, host.exec, p.world);
    SameOffset(p.t, word, p.pc, pc, host.tells, host.exec, p.world);
    NoSeek(p.t, [word] + rest, p.pc, host.tells, host.exec, p.world);
    assert ([word] + rest)[0] == word;
  }

  /** A keyword behind another is run as a command, whatever word it is. */
  lemma RunAsCommand<W>(t: Table, word: Word, rest: Line, offs: nat, canLoop: bool, exec: Exec<W>, world: W)
    requires Opens(t, word) && rest != [] && rest[0] != BreakW && (word == DoW ==> IsLoopWord(rest[0]))
    requires IfTop(t).state == IfIf ==> word == ThenW
    ensures var r := Parse(t, [word] + rest, offs, canLoop, exec, world);
            if Enabled(Parse(t, [word], offs, canLoop, exec, world).t) then
              && r.world == exec(rest, world, t.fail).0
              && r.err == r.t.fail == exec(rest, world, t.fail).1
            else r.world == world && !r.err && r.t.fail == t.fail
  {
    hide Enabled, Sound, Parse, Opened;
    assert [word] + [] == [word];
    WordTaken(t, word, [], offs, canLoop, exec, world);
    WordTaken(t, word, rest, offs, canLoop, exec, world);
  }

  // ----- keywords out of place -----

  /** Where a line is not refused for its loop words. */
  predicate LoopWordsFit(t: Table, line: Line, canLoop: bool) {
    if line == [] then true
    else match line[0]
      case WhileW | UntilW =>
        && 1 < |line| && line[1] != EmptyW && canLoop
        && !AwaitsDo(t) && IfTop(t).state != IfIf && t.lpndx < |t.lp| - 1
      case DoW => AwaitsDo(t)
      case DoneW => |line| == 1 && LoopTop(t).state == LoopDo
      case _ => !AwaitsDo(t)
  }

  /** Where a line is not refused for its if words. */
  predicate IfWordsFit(t: Table, line: Line) {
    if line == [] then true
    else match line[0]
      case IfW =>
        var k := if 1 < |line| && line[1] == BangW then 2 else 1;
        k < |line| && line[k] != EmptyW && IfTop(t).state != IfIf && t.iendx < |t.ie| - 1
      case ThenW => IfTop(t).state == IfIf
      case ElseW => IfTop(t).state == IfThen
      case FiW => |line| == 1 && (IfTop(t).state == IfThen || IfTop(t).state == IfElse)
      case _ => IfTop(t).state != IfIf
  }

  /** A line whose loop words do not fit runs nothing and leaves no loop open, and the ifs as they
      were; its failure is the condition of an `if` that waits for one, or else an error. */
  lemma LoopRefused<W>(t: Table, line: Line, offs: nat, canLoop: bool, exec: Exec<W>, world: W)
    requires !LoopWordsFit(t, line, canLoop)
    ensures var r := Parse(t, line, offs, canLoop, exec, world);
            && r.world == world && r.seek == None && r.t.lpndx == 0 && r.t.iendx == t.iendx
            && (IfTop(t).state == IfIf <==> !r.err) && r.t.fail == r.err
  {
    hide Enabled, Finish, IfLine;
  }

  /** A line whose loop words fit is handed on without them. */
  lemma LoopHandsOn(t: Table, line: Line, offs: nat, canLoop: bool)
    requires LoopWordsFit(t, line, canLoop)
    ensures var o := LoopLine(t, line, offs, canLoop);
            o.Outcome? && o.line == if line != [] && IsLoopWord(line[0]) then line[1..] else line
  {
    hide PushLoop, PopLoop, Enabled;
  }

  /** What is left does the same with its if words: nothing is run where they do not fit, ... */
  lemma IfRefused<W>(t: Table, line: Line, seek: Option<nat>, exec: Exec<W>, world: W)
    requires !IfWordsFit(t, line)
    ensures var r := Finish(t, line, seek, exec, world);
            && r.world == world && r.seek == seek && r.t.iendx == 0 && r.t.lpndx == t.lpndx
            && (AwaitsDo(t) <==> !r.err) && r.t.fail == r.err
  {
    hide NshSlots.Execute, Enabled;
  }

  /** ... and where they do, what is left after them is what is run. */
  lemma IfHandsOn(t: Table, line: Line)
    requires IfWordsFit(t, line)
    ensures var o := IfLine(t, line);
            && o.Outcome?
            && o.line == (if line == [] || !IsIfWord(line[0]) then line
                          else if line[0] == IfW && line[1] == BangW then line[2..]
                          else line[1..])
  {
    hide Enabled;
  }

  /** `break` takes no words, and outside every loop does nothing. */
  lemma BreakRefused<W>(t: Table, rest: Line, offs: nat, canLoop: bool, exec: Exec<W>, world: W)
    requires Enabled(t) && !AwaitsDo(t) && IfTop(t).state != IfIf && (rest == [] ==> t.lpndx == 0)
    ensures Parse(t, [BreakW] + rest, offs, canLoop, exec, world) ==
            Parsed(t.(fail := rest != []), world, rest != [], None)
  {
    hide Enabled;
  }

  // ----- files whose position cannot be read or set -----

  /** If the position cannot be set, every line is read once, in order. */
  lemma {:induction false} ReadOnce<W>(n: nat, script: seq<Line>, host: Host<W>, p: Spot<W>)
    requires !host.seeks
    ensures var q := Turns(n, script, host, p); !q.halted ==> q.pc == p.pc + n
  {
    hide Parse;
    if n > 0 {
      ReadOnce(n - 1, script, host, p);
    }
  }

  lemma IfKeepsLoops(t: Table, line: Line)
    ensures IfLine(t, line).t.lpndx == t.lpndx
  {
    hide Enabled;
  }

  lemma SaveKeepsLoops(t: Table, failed: bool)
    ensures Save(t, failed).0.lpndx == t.lpndx
  {
  }

  lemma FinishKeepsLoops<W>(t: Table, line: Line, seek: Option<nat>, exec: Exec<W>, world: W)
    ensures Finish(t, line, seek, exec, world).t.lpndx == t.lpndx
  {
    hide IfLine, Save, Enabled, Sound;
    IfKeepsLoops(t, line);
    match IfLine(t, line)
    case Refused(t1) => SaveKeepsLoops(t1, true);
    case Outcome(t1, line1, _) =>
      if line1 != [] {
        var (t2, _, failed) := NshSlots.Execute(t1, line1, exec, world);
        SaveKeepsLoops(t2, failed);
      }
  }

  lemma NoLoopBegins<W>(t: Table, line: Line, offs: nat, exec: Exec<W>, world: W)
    requires t.lpndx == 0
    ensures Parse(t, line, offs, false, exec, world).t.lpndx == 0
  {
    if LoopWordsFit(t, line, false) {
      LoopHandsOn(t, line, offs, false);
      FinishKeepsLoops(LoopLine(t, line, offs, false).t, LoopLine(t, line, offs, false).line, None, exec, world);
    } else {
      LoopRefused(t, line, offs, false, exec, world);
    }
  }

  /** If it cannot be read, no loop is ever entered. */
  lemma {:induction false} NeverInLoop<W>(n: nat, script: seq<Line>, host: Host<W>, p: Spot<W>)
    requires !host.tells && p.t.lpndx == 0
    ensures Turns(n, script, host, p).t.lpndx == 0
  {
    hide Parse;
    if n > 0 {
      NeverInLoop(n - 1, script, host, p);
      var q := Turns(n - 1, script, host, p);
      if q.pc < |script| {
        NoLoopBegins(q.t, script[q.pc], q.pc, host.exec, q.world);
      }
    }
  }
}
