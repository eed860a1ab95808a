/** The parser as the source keeps it: two fixed arrays of NESTDEPTH slots with an index each,
    updated in place.  For any line whatsoever, each method leaves in the arrays what the machine
    of NshSlots says, which keeps the indices in range and the slots sound. */
module NshShell {
  import opened Wrappers
  import opened NshParser
  import opened NshScript
  import NshSlots

  class Shell<W> {
    const exec: Exec<W>
    const iestate: array<IfEntry>
    const lpstate: array<LoopEntry>
    var iendx: nat
    var lpndx: nat
    var fail: bool
    var world: W

    ghost function Slots(): NshSlots.Slots
      reads this, iestate, lpstate
    {
      NshSlots.Slots(iestate[..], iendx, lpstate[..], lpndx, fail)
    }

    ghost predicate Valid()
      reads this, iestate, lpstate
    {
      NshSlots.Sound(Slots())
    }

    constructor (depth: nat, exec: Exec<W>, world: W)
      requires depth >= 1
      ensures Valid() && NshSlots.View(Slots()) == Parser(Bottom, Bottom, false, depth, false)
      ensures this.exec == exec && this.world == world && fresh(iestate) && fresh(lpstate)
    {
      this.exec := exec;
      iestate := new IfEntry[depth](_ => IfEntry(IfNormal, false, false, false));
      lpstate := new LoopEntry[depth](_ => LoopEntry(LoopNormal, false, 0, 0));
      iendx, lpndx, fail, this.world := 0, 0, false, world;
    }

    function LoopTop(): (top: LoopEntry)
      reads this, iestate, lpstate
      requires Valid()
      ensures top == NshSlots.LoopTop(Slots())
    {
      lpstate[lpndx]
    }

    function IfTop(): (top: IfEntry)
      reads this, iestate, lpstate
      requires Valid()
      ensures top == NshSlots.IfTop(Slots())
    {
      iestate[iendx]
    }

    predicate LoopEnabled()
      reads this, iestate, lpstate
      requires Valid()
    {
      if LoopTop().state == LoopDo then LoopTop().enable else true
    }

    predicate IfEnabled()
      reads this, iestate, lpstate
      requires Valid()
    {
      var top := IfTop();
      if top.disabled then false
      else match top.state
        case IfThen => !top.cond
        case IfElse => top.cond
        case _ => true
    }

    function CmdEnabled(): (enabled: bool)
      reads this, iestate, lpstate
      requires Valid()
      ensures enabled == NshSlots.View(Slots()).CmdEnabled() == NshSlots.Enabled(Slots())
    {
      NshSlots.EnabledView(Slots());
      LoopEnabled() && IfEnabled()
    }

    method SetLoopTop(entry: LoopEntry)
      requires Valid() && lpndx >= 1 && entry.state != LoopNormal && entry.iendx < iestate.Length
      modifies lpstate
      ensures Valid() && Slots() == NshSlots.SetLoopTop(old(Slots()), entry)
    {
      lpstate[lpndx] := entry;
    }

    method SetIfTop(entry: IfEntry)
      requires Valid() && iendx >= 1
      modifies iestate
      ensures Valid() && Slots() == NshSlots.SetIfTop(old(Slots()), entry)
    {
      iestate[iendx] := entry;
    }

    /** The error exit of `nsh_loop`. */
    method ResetLoops()
      requires Valid()
      modifies this`lpndx, lpstate
      ensures Valid() && Slots() == NshSlots.NoLoops(old(Slots()))
    {
      lpndx := 0;
      lpstate[0] := lpstate[0].(state := LoopNormal, enable := true, top := 0);
    }

    /** The error exit of `nsh_itef`. */
    method ResetIfs()
      requires Valid()
      modifies this`iendx, iestate
      ensures Valid() && Slots() == NshSlots.NoIfs(old(Slots()))
    {
      iendx := 0;
      iestate[0] := IfEntry(IfNormal, false, false, false);
    }

    method PushLoop(state: LoopState, enable: bool, offs: nat)
      requires Valid() && state != LoopNormal && lpndx + 1 < lpstate.Length && !NshSlots.AwaitsDo(Slots())
      modifies this`lpndx, lpstate
      ensures Valid()
      ensures Slots() == NshSlots.PushLoop(old(Slots()), LoopEntry(state, enable, old(iendx), offs))
    {
      lpndx := lpndx + 1;
      lpstate[lpndx] := LoopEntry(state, enable, iendx, offs);
    }

    method EnterLoop(rest: Line, state: LoopState, offs: nat, canLoop: bool) returns (ok: bool)
      requires Valid() && state != LoopNormal
      modifies this`lpndx, lpstate
      ensures Valid()
      ensures match NshSlots.EnterLoop(old(Slots()), rest, state, offs, canLoop)
              case Outcome(t, words, seek) => ok && Slots() == t && words == rest && seek == None
              case Refused(t) => !ok && Slots() == t
    {
      hide NshSlots.View, NshSlots.Enabled, NshSlots.PushLoop, NshSlots.NoLoops;
      ok := rest != [] && rest[0] != EmptyW
            && IfTop().state != IfIf
            && LoopTop().state != LoopWhile && LoopTop().state != LoopUntil
            && canLoop && lpndx < lpstate.Length - 1;
      if ok {
        var enable := CmdEnabled();
        PushLoop(state, enable, offs);
      } else {
        ResetLoops();
      }
    }

    method StartBody(rest: Line) returns (ok: bool)
      requires Valid()
      modifies this`lpndx, lpstate
      ensures Valid()
      ensures match NshSlots.StartBody(old(Slots()), rest)
              case Outcome(t, words, seek) => ok && Slots() == t && words == rest && seek == None
              case Refused(t) => !ok && Slots() == t
    {
      ok := LoopTop().state == LoopWhile || LoopTop().state == LoopUntil;
      if ok {
        SetLoopTop(LoopTop().(state := LoopDo));
      } else {
        ResetLoops();
      }
    }

    /** Leave a loop: back to its top line, or on.  The "Shouldn't happen" exit is unreachable. */
    method EndLoop(line: Line) returns (ok: bool, seek: Option<nat>)
      requires Valid()
      modifies this`lpndx, lpstate
      ensures Valid()
      ensures match NshSlots.EndLoop(old(Slots()), line)
              case Outcome(t, words, target) => ok && Slots() == t && words == [] && seek == target
              case Refused(t) => !ok && Slots() == t
    {
      var top := LoopTop();
      ok, seek := |line| <= 1 && top.state == LoopDo, None;
      if ok {
        if lpndx < 1 {
          assert false;
        }
        seek := if top.enable then Some(top.top) else None;
        lpstate[lpndx] := top.(state := LoopNormal, enable := true);
        lpndx := lpndx - 1;
      } else {
        ResetLoops();
      }
    }

    /** `nsh_loop`. */
    method HandleLoop(line: Line, offs: nat, canLoop: bool) returns (ok: bool, rest: Line, seek: Option<nat>)
      requires Valid()
      modifies this`lpndx, lpstate
      ensures Valid()
      ensures match NshSlots.LoopLine(old(Slots()), line, offs, canLoop)
              case Outcome(t, words, target) => ok && Slots() == t && rest == words && seek == target
              case Refused(t) => !ok && Slots() == t
    {
      hide NshSlots.EnterLoop, NshSlots.StartBody, NshSlots.EndLoop, NshSlots.NoLoops;
      ok, rest, seek := true, line, None;
      if line == [] {
        return;
      }
      match line[0] {
        case WhileW =>
          rest := line[1..];
          ok := EnterLoop(rest, LoopWhile, offs, canLoop);
        case UntilW =>
          rest := line[1..];
          ok := EnterLoop(rest, LoopUntil, offs, canLoop);
        case DoW =>
          rest := line[1..];
          ok := StartBody(rest);
        case DoneW =>
          rest := [];
          ok, seek := EndLoop(line);
        case _ =>
          ok := LoopTop().state != LoopWhile && LoopTop().state != LoopUntil;
          if !ok {
            ResetLoops();
          }
      }
    }

    method EnterIf(rest: Line, inverted: bool) returns (ok: bool)
      requires Valid()
      modifies this`iendx, iestate
      ensures Valid()
      ensures match NshSlots.EnterIf(old(Slots()), rest, inverted)
              case Outcome(t, words, _) => ok && Slots() == t && words == rest
              case Refused(t) => !ok && Slots() == t
    {
      hide NshSlots.View, NshSlots.Enabled;
      ok := IfTop().state != IfIf && iendx < iestate.Length - 1;
      if ok {
        var disabled := !CmdEnabled();
        iendx := iendx + 1;
        iestate[iendx] := IfEntry(IfIf, disabled, false, inverted);
      } else {
        ResetIfs();
      }
    }

    method AdvanceIf(rest: Line, expected: IfState, next: IfState) returns (ok: bool)
      requires Valid() && expected != IfNormal
      modifies this`iendx, iestate
      ensures Valid()
      ensures match NshSlots.Advance(old(Slots()), rest, expected, next)
              case Outcome(t, words, _) => ok && Slots() == t && words == rest
              case Refused(t) => !ok && Slots() == t
    {
      ok := IfTop().state == expected;
      if ok {
        SetIfTop(IfTop().(state := next));
      } else {
        ResetIfs();
      }
    }

    /** The "Shouldn't happen" exit is unreachable. */
    method EndIf(line: Line) returns (ok: bool)
      requires Valid()
      modifies this`iendx, iestate
      ensures Valid()
      ensures match NshSlots.EndIf(old(Slots()), line)
              case Outcome(t, words, _) => ok && Slots() == t && words == []
              case Refused(t) => !ok && Slots() == t
    {
      ok := |line| <= 1 && (IfTop().state == IfThen || IfTop().state == IfElse);
      if ok {
        if iendx < 1 {
          assert false;
        }
        iendx := iendx - 1;
      } else {
        ResetIfs();
      }
    }

    /** `nsh_itef`. */
    method HandleIf(line: Line) returns (ok: bool, rest: Line)
      requires Valid()
      modifies this`iendx, iestate
      ensures Valid()
      ensures match NshSlots.IfLine(old(Slots()), line)
              case Outcome(t, words, _) => ok && Slots() == t && rest == words
              case Refused(t) => !ok && Slots() == t
    {
      hide NshSlots.EnterIf, NshSlots.Advance, NshSlots.EndIf, NshSlots.NoIfs, NshSlots.Sound;
      ok, rest := true, line;
      if line == [] {
        return;
      }
      match line[0] {
        case IfW =>
          var inverted := |line| > 1 && line[1] == BangW;
          rest := if inverted then line[2..] else line[1..];
          ok := rest != [] && rest[0] != EmptyW;
          if ok {
            ok := EnterIf(rest, inverted);
          } else {
            ResetIfs();
          }
        case ThenW =>
          rest := line[1..];
          ok := AdvanceIf(rest, IfIf, IfThen);
        case ElseW =>
          rest := line[1..];
          ok := AdvanceIf(rest, IfThen, IfElse);
        case FiW =>
          rest := [];
          ok := EndIf(line);
        case _ =>
          ok := IfTop().state != IfIf;
          if !ok {
            ResetIfs();
          }
      }
    }

    method SetFail(failed: bool)
      requires Valid()
      modifies this`fail
      ensures Valid() && Slots() == old(Slots()).(fail := failed)
    {
      fail := failed;
    }

    /** `nsh_saveresult`. */
    method SaveResult(failed: bool) returns (err: bool)
      requires Valid()
      modifies this`fail, iestate, lpstate
      ensures Valid() && (Slots(), err) == NshSlots.Save(old(Slots()), failed)
    {
      hide NshSlots.Sound, NshSlots.SetLoopTop, NshSlots.SetIfTop;
      NshSlots.TopInside(Slots());
      err := false;
      if LoopTop().state == LoopWhile {
        SetLoopTop(LoopTop().(enable := !failed));
        SetFail(false);
      } else if LoopTop().state == LoopUntil {
        SetLoopTop(LoopTop().(enable := failed));
        SetFail(false);
      } else if IfTop().state == IfIf {
        SetIfTop(IfTop().(cond := IfTop().inverted != failed));
        SetFail(false);
      } else {
        SetFail(failed);
        err := failed;
      }
    }

    /** `cmd_break`.  The index may also move up, onto stale slots; it stays in range. */
    method Break()
      requires Valid()
      modifies this`iendx, lpstate
      ensures Valid() && Slots() == NshSlots.Break(old(Slots()))
    {
      if LoopTop().state == LoopDo {
        iendx := LoopTop().iendx;
        lpstate[lpndx] := LoopTop().(enable := false);
      }
    }

    method Execute(line: Line) returns (failed: bool)
      requires Valid() && line != []
      modifies this`iendx, this`world, lpstate
      ensures Valid() && (Slots(), world, failed) == NshSlots.Execute(old(Slots()), line, exec, old(world))
    {
      hide NshSlots.Break;
      if line[0] == BreakW {
        failed := |line| > 1;
        if !failed {
          Break();
        }
      } else {
        var (w, f) := exec(line, world, fail);
        world, failed := w, f;
      }
    }

    method FinishCommand(line: Line, ghost seek: Option<nat>) returns (err: bool)
      requires Valid()
      modifies this`iendx, this`fail, this`world, iestate, lpstate
      ensures Valid()
      ensures NshSlots.Parsed(Slots(), world, err, seek) == NshSlots.Finish(old(Slots()), line, seek, exec, old(world))
    {
      hide NshSlots.IfLine, NshSlots.Save, NshSlots.Execute;
      var ok, rest := HandleIf(line);
      if !ok {
        err := SaveResult(true);
      } else if rest == [] || !CmdEnabled() {
        err := false;
      } else {
        var failed := Execute(rest);
        err := SaveResult(failed);
      }
    }

    /** `nsh_parse_command`. */
    method ParseCommand(line: Line, offs: nat, canLoop: bool) returns (err: bool, seek: Option<nat>)
      requires Valid()
      modifies this`iendx, this`lpndx, this`fail, this`world, iestate, lpstate
      ensures Valid()
      ensures NshSlots.Parsed(Slots(), world, err, seek) ==
              NshSlots.Parse(old(Slots()), line, offs, canLoop, exec, old(world))
    {
      hide NshSlots.LoopLine, NshSlots.Save, NshSlots.Finish;
      var ok, rest;
      ok, rest, seek := HandleLoop(line, offs, canLoop);
      if ok {
        err := FinishCommand(rest, seek);
      } else {
        seek := None;
        err := SaveResult(true);
      }
    }

    /** The loop of `nsh_script`, for at most `budget` lines. */
    method Script(script: seq<Line>, ignore: bool, tells: bool, seeks: bool, budget: nat)
      returns (pc: nat, ret: bool, halted: bool)
      requires Valid()
      modifies this`iendx, this`lpndx, this`fail, this`world, iestate, lpstate
      ensures Valid()
      ensures NshSlots.Spot(pc, Slots(), world, ret, halted) ==
              NshSlots.Turns(budget, script, Host(exec, ignore, tells, seeks),
                             NshSlots.Spot(0, old(Slots()), old(world), true, false))
    {
      hide NshSlots.Parse;
      ghost var host := Host(exec, ignore, tells, seeks);
      ghost var start := NshSlots.Spot(0, Slots(), world, true, false);
      pc, ret, halted := 0, true, false;
      var i := 0;
      while i < budget
        invariant Valid() && i <= budget
        invariant NshSlots.Spot(pc, Slots(), world, ret, halted) == NshSlots.Turns(i, script, host, start)
      {
        if !halted {
          if pc >= |script| {
            halted := true;
          } else {
            var seek;
            ret, seek := ParseCommand(script[pc], pc, tells);
            pc := if seek.Some? && seeks then seek.value else pc + 1;
            halted := ret && !ignore;
          }
        }
        i := i + 1;
      }
    }
  }
}
