/** `$?` in a script: the status of the command before. */
module ScriptStatus {
  import opened Wrappers
  import opened NshParser
  import opened NshScript
  import opened ScriptSemantics
  import opened ScriptPositions
  import opened ScriptSimulation
  import EnvCommands

  /** After a command that is run, `$?` is "0" exactly if it succeeded, whatever the variables hold; a
      command that is passed over leaves it. */
  lemma AfterCommand<W>(script: seq<Line>, host: Host<W>, c: Config<W>, mode: Mode, place: Place, s: EnvCommands.State)
    requires !c.halted && c.pc < |script| && Ready(c.np, mode, place, Cmd(script[c.pc]))
    ensures var status := EnvCommands.Expand(s, "?", Step(script, host, c).np.fail);
            if mode == On then
              var failed := host.exec(script[c.pc], c.world, c.np.fail).1;
              (status == "0" <==> !failed) && (status == "1" <==> failed)
            else status == EnvCommands.Expand(s, "?", c.np.fail)
  {
    hide Step;
    StepCmd(script, host, c, mode, place);
  }

  /** After the condition of an `if` or a loop it is "0", whichever way that went. */
  lemma AfterCondition<W>(script: seq<Line>, host: Host<W>, c: Config<W>, code: Code, s: EnvCommands.State)
    requires !c.halted && host.tells && ModeOf(c.np) == Some(On) && (code.If? || code.Loop?) && Plain(code.cond)
    requires Room(c.np.ifs, c.np.depth) >= 1 && Room(c.np.loops, c.np.depth) >= 1 && At(script, c.pc, code)
    ensures EnvCommands.Expand(s, "?", Step(script, host, c).np.fail) == "0"
  {
    hide Step, ModeOf;
    if code.If? {
      StepIf(script, host, c, On, code.inverted, code.cond);
    } else {
      StepLoop(script, host, c, On, code.until, code.cond);
    }
  }
}
