/** Running a script file line by line: the loop of `nsh_script`. */
module NshScript {
  import opened Wrappers
  import opened NshParser

  /** What a script run depends on: the commands, the `set +e` flag (carry on after an
      error), and whether the stream's position can be read (`ftell`) and moved (`fseek`). */
  datatype Host<!W> = Host(exec: Exec<W>, ignore: bool, tells: bool, seeks: bool)

  /** `pc` is the file position counted in lines; `err` is the value last returned by the
      line parser, which is also what `nsh_script` returns in the end. */
  datatype Config<+W> = Config(pc: nat, np: Parser, world: W, err: bool, halted: bool)

  /** One turn of the loop: note the position, read a line, parse it. */
  function Step<W>(script: seq<Line>, host: Host<W>, c: Config<W>): Config<W> {
    if c.halted then c
    else if c.pc >= |script| then c.(halted := true)
    else
      var r := ParseLine(c.np, script[c.pc], c.pc, host.tells, host.exec, c.world);
      var next := if r.seek.Some? && host.seeks then r.seek.value else c.pc + 1;
      Config(next, r.np, r.world, r.err, r.err && !host.ignore)
  }

  /** The configuration after at most `n` turns of the loop. */
  function Run<W>(n: nat, script: seq<Line>, host: Host<W>, c: Config<W>): Config<W>
    decreases n, 2
  {
    if n == 0 then c else Onward(n, script, host, c)
  }

  function Onward<W>(n: nat, script: seq<Line>, host: Host<W>, c: Config<W>): Config<W>
    requires n > 0
    decreases n, 1
  {
    if c.halted then c else Turn(n, script, host, c)
  }

  function Turn<W>(n: nat, script: seq<Line>, host: Host<W>, c: Config<W>): Config<W>
    requires n > 0
    decreases n, 0
  {
    Run(n - 1, script, host, Step(script, host, c))
  }

  lemma RunUnfold<W>(n: nat, script: seq<Line>, host: Host<W>, c: Config<W>)
    ensures c.halted ==> Run(n, script, host, c) == c
    ensures Run(n + 1, script, host, c) == Run(n, script, host, Step(script, host, c))
  {
    assert n > 0 ==> Run(n, script, host, c) == Onward(n, script, host, c);
    assert Run(n + 1, script, host, c) == Onward(n + 1, script, host, c);
    assert !c.halted ==> Onward(n + 1, script, host, c) == Turn(n + 1, script, host, c);
  }

  lemma {:induction false} RunAdd<W>(m: nat, n: nat, script: seq<Line>, host: Host<W>, c: Config<W>)
    ensures Run(m + n, script, host, c) == Run(n, script, host, Run(m, script, host, c))
  {
    if m > 0 {
      RunUnfold(m - 1 + n, script, host, c);
      RunUnfold(m - 1, script, host, c);
      RunAdd(m - 1, n, script, host, Step(script, host, c));
    }
  }

  /** A run that is still going after `n` turns was going after every smaller number. */
  lemma StillRunning<W>(m: nat, n: nat, script: seq<Line>, host: Host<W>, c: Config<W>)
    requires m <= n && !Run(n, script, host, c).halted
    ensures !Run(m, script, host, c).halted
  {
    RunAdd(m, n - m, script, host, c);
    RunUnfold(n - m, script, host, Run(m, script, host, c));
  }
}
