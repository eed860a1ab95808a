/** The `set`, `unset` and `export` commands over a session's own variables and the environment,
    and what they make of each name. */
module EnvCommands {
  import opened Wrappers
  import opened VarPairs
  import opened ShellVars

  // The session's variables and the environment.
  datatype State = State(vars: seq<Pair>, env: seq<Pair>)

  /** The flags say whether memory could be had when the command asked for it. */
  datatype Command =
    | SetCmd(name: string, value: string, memory: bool)
    | UnsetCmd(name: string, varsMemory: bool, envMemory: bool)
    | ExportCmd(name: string, given: Option<string>, envMemory: bool, varsMemory: bool)

  /** An unset fails if the variable was there, others are, and the buffer could not be reallocated. */
  predicate UnsetOk(pairs: seq<Pair>, name: string, memory: bool) {
    Lookup(pairs, name).None? || Without(pairs, name) == [] || memory
  }

  /** Setting an environment variable to nothing unsets it. */
  function SetEnv(env: seq<Pair>, name: string, value: string, memory: bool): seq<Pair> {
    Apply(env, if value == "" then Unset(name) else Set(name, value, memory))
  }

  predicate SetEnvOk(env: seq<Pair>, name: string, value: string, memory: bool) {
    if value == "" then UnsetOk(env, name, memory) else memory
  }

  /** What an export gives the environment: the value given, or the session's own. */
  function Exported(s: State, cmd: Command): string
    requires cmd.ExportCmd?
  {
    Or(cmd.given, Or(Lookup(s.vars, cmd.name), ""))
  }

  function Exec(s: State, cmd: Command): State {
    match cmd
    case SetCmd(name, value, memory) =>
      if Lookup(s.env, name).None? then s.(vars := Apply(s.vars, Set(name, value, memory)))
      else s.(env := SetEnv(s.env, name, value, memory))
    case UnsetCmd(name, _, _) =>
      State(Apply(s.vars, Unset(name)), Apply(s.env, Unset(name)))
    case ExportCmd(name, _, envMemory, _) =>
      var value := Exported(s, cmd);
      var env := SetEnv(s.env, name, value, envMemory);
      State(if SetEnvOk(s.env, name, value, envMemory) then Apply(s.vars, Unset(name)) else s.vars, env)
  }

  function Run(s: State, cmds: seq<Command>): State
    decreases |cmds|
  {
    if cmds == [] then s else Run(Exec(s, cmds[0]), cmds[1..])
  }

  /** What a reference to a name stands for. */
  function Expand(s: State, name: string, fail: bool): string {
    if name == "?" then (if fail then "1" else "0")
    else Or(Lookup(s.vars, name), Or(Lookup(s.env, name), ""))
  }

  // ----- one name at a time -----

  /** What a name is: nothing, a variable of the session, or an environment variable. */
  datatype Slot = Absent | Local(value: string) | Global(value: string)

  /** No name is both. */
  ghost predicate Apart(s: State) {
    forall name :: Lookup(s.vars, name).None? || Lookup(s.env, name).None?
  }

  function SlotOf(s: State, name: string): Slot {
    match Lookup(s.vars, name)
    case Some(v) => Local(v)
    case None => match Lookup(s.env, name) case Some(v) => Global(v) case None => Absent
  }

  /** What a command makes of its name. */
  function Turn(slot: Slot, cmd: Command): Slot {
    match cmd
    case SetCmd(_, value, memory) =>
      if slot.Global? then (if value == "" || !memory then Absent else Global(value))
      else if memory then Local(value) else Absent
    case UnsetCmd(_, _, _) => Absent
    case ExportCmd(_, given, memory, _) =>
      var value := Or(given, if slot.Local? then slot.value else "");
      if value == "" then Absent
      else if memory then Global(value)
      else if slot.Local? then slot
      else Absent
  }

  function Turns(slot: Slot, cmds: seq<Command>, name: string): Slot
    decreases |cmds|
  {
    if cmds == [] then slot
    else Turns(if cmds[0].name == name then Turn(slot, cmds[0]) else slot, cmds[1..], name)
  }

  lemma SetEnvLookup(env: seq<Pair>, name: string, value: string, memory: bool, other: string)
    ensures Lookup(SetEnv(env, name, value, memory), other) ==
            if other != name then Lookup(env, other) else if value == "" || !memory then None else Some(value)
  {
    ApplyLookup(env, if value == "" then Unset(name) else Set(name, value, memory), other);
  }

  /** One command, seen at one name. */
  lemma ExecSlot(s: State, cmd: Command, name: string)
    requires Lookup(s.vars, name).None? || Lookup(s.env, name).None?
    ensures var s' := Exec(s, cmd);
            && (Lookup(s'.vars, name).None? || Lookup(s'.env, name).None?)
            && SlotOf(s', name) == if cmd.name == name then Turn(SlotOf(s, name), cmd) else SlotOf(s, name)
  {
    match cmd
    case SetCmd(n, value, memory) =>
      ApplyLookup(s.vars, Set(n, value, memory), name);
      SetEnvLookup(s.env, n, value, memory, name);
    case UnsetCmd(n, _, _) =>
      ApplyLookup(s.vars, Unset(n), name);
      ApplyLookup(s.env, Unset(n), name);
    case ExportCmd(n, given, envMemory, _) =>
      ApplyLookup(s.vars, Unset(n), name);
      SetEnvLookup(s.env, n, Exported(s, cmd), envMemory, name);
  }

  /** Over any run that starts with no name in both places, no name ever is, and each name goes its
      own way, whatever the commands on other names do. */
  lemma {:induction false} RunSlots(s: State, cmds: seq<Command>)
    requires Apart(s)
    ensures Apart(Run(s, cmds))
    ensures forall name :: SlotOf(Run(s, cmds), name) == Turns(SlotOf(s, name), cmds, name)
    decreases |cmds|
  {
    if cmds != [] {
      forall name: string
        ensures Lookup(Exec(s, cmds[0]).vars, name).None? || Lookup(Exec(s, cmds[0]).env, name).None?
        ensures SlotOf(Exec(s, cmds[0]), name) ==
                if cmds[0].name == name then Turn(SlotOf(s, name), cmds[0]) else SlotOf(s, name)
      {
        ExecSlot(s, cmds[0], name);
      }
      RunSlots(Exec(s, cmds[0]), cmds[1..]);
    }
  }

  /** The value a command sets its name to, when it is given one and memory can be had. */
  function Sets(cmd: Command): Option<string> {
    match cmd
    case SetCmd(_, value, memory) => if memory then Some(value) else None
    case UnsetCmd(_, _, _) => None
    case ExportCmd(_, given, memory, _) => if memory then given else None
  }

  lemma {:induction false} RunSplit(s: State, a: seq<Command>, b: seq<Command>)
    ensures Run(s, a + b) == Run(Run(s, a), b)
    decreases |a|
  {
    if a == [] {
      assert a + b == b;
    } else {
      assert (a + b)[1..] == a[1..] + b;
      RunSplit(Exec(s, a[0]), a[1..], b);
    }
  }

  function Stands(slot: Slot): string {
    if slot.Absent? then "" else slot.value
  }

  /** `$name` is what the name stands for: the session's variable comes before the environment's. */
  lemma ExpandsSlot(s: State, name: string, fail: bool)
    requires name != "?"
    ensures Expand(s, name, fail) == Stands(SlotOf(s, name))
  {
  }

  /** A command on a name that leaves what it stands for: setting or exporting it to the same value,
      a by-name export of a session variable, a failed export of one, and anything that leaves
      nothing where there was nothing. */
  predicate Keeps(slot: Slot, cmd: Command) {
    match cmd
    case SetCmd(_, value, memory) => Stands(slot) == if memory then value else ""
    case UnsetCmd(_, _, _) => Stands(slot) == ""
    case ExportCmd(_, None, _, _) => !slot.Global? || slot.value == ""
    case ExportCmd(_, Some(value), memory, _) =>
      Stands(slot) == (if memory then value else "") || (slot.Local? && !memory && value != "")
  }

  /** Exactly these commands do. */
  lemma KeepsExactly(slot: Slot, cmd: Command)
    ensures Stands(Turn(slot, cmd)) == Stands(slot) <==> Keeps(slot, cmd)
  {
  }

  /** Every command of a run on a name leaves what it stands for when it is met. */
  predicate AllKeep(slot: Slot, cmds: seq<Command>, name: string)
    decreases |cmds|
  {
    cmds == [] ||
    if cmds[0].name == name then Keeps(slot, cmds[0]) && AllKeep(Turn(slot, cmds[0]), cmds[1..], name)
    else AllKeep(slot, cmds[1..], name)
  }

  lemma {:induction false} TurnsKeep(slot: Slot, cmds: seq<Command>, name: string)
    requires AllKeep(slot, cmds, name)
    ensures Stands(Turns(slot, cmds, name)) == Stands(slot)
    decreases |cmds|
  {
    if cmds != [] {
      if cmds[0].name == name {
        KeepsExactly(slot, cmds[0]);
        TurnsKeep(Turn(slot, cmds[0]), cmds[1..], name);
      } else {
        TurnsKeep(slot, cmds[1..], name);
      }
    }
  }

  /** A name stands for the last value it was set to, as long as each later command on it is one of
      those that keep it. */
  lemma LastValue(s: State, before: seq<Command>, cmd: Command, after: seq<Command>, fail: bool)
    requires Apart(s) && Sets(cmd).Some? && cmd.name != "?"
    requires AllKeep(Turn(SlotOf(Run(s, before), cmd.name), cmd), after, cmd.name)
    ensures Expand(Run(s, before + ([cmd] + after)), cmd.name, fail) == Sets(cmd).value
  {
    var s1 := Run(s, before);
    RunSplit(s, before, [cmd] + after);
    assert ([cmd] + after)[1..] == after;
    RunSlots(s, before);
    RunSlots(s1, [cmd] + after);
    TurnsKeep(Turn(SlotOf(s1, cmd.name), cmd), after, cmd.name);
  }

  /** Exporting a name without a value keeps what it stands for, whatever memory does, unless the
      name is already in the environment: then the variable is lost. */
  lemma ExportKeeps(s: State, name: string, envMemory: bool, varsMemory: bool, fail: bool)
    requires Apart(s) && name != "?"
    ensures var s' := Exec(s, ExportCmd(name, None, envMemory, varsMemory));
            && (Expand(s', name, fail) == Expand(s, name, fail) <==> Or(Lookup(s.env, name), "") == "")
            && (Lookup(s.env, name).Some? ==> SlotOf(s', name) == Absent)
  {
    ExecSlot(s, ExportCmd(name, None, envMemory, varsMemory), name);
  }

  // ----- names of any kind -----

  /** What a command comes to: a new state and a result, unless a comparison runs past the end of
      the strings compared. */
  datatype Effect = Overrun | Effect(s: State, ok: bool)

  function SetEnvAny(env: seq<Pair>, name: string, value: string, memory: bool): Option<(seq<Pair>, bool)> {
    match Act(env, if value == "" then Unset(name) else Set(name, value, memory))
    case None => None
    case Some(all) => Some((all, if value == "" then Unsets(env, name, memory) else memory))
  }

  function SetAny(s: State, name: string, value: string, memory: bool): Effect {
    match Search(s.env, name)
    case Past => Overrun
    case Missing =>
      (match Act(s.vars, Set(name, value, memory))
       case None => Overrun
       case Some(vars) => Effect(s.(vars := vars), memory))
    case Found(_) =>
      (match SetEnvAny(s.env, name, value, memory)
       case None => Overrun
       case Some((env, ok)) => Effect(s.(env := env), ok))
  }

  function UnsetAny(s: State, name: string, varsMemory: bool, envMemory: bool): Effect {
    var vars, env := Act(s.vars, Unset(name)), Act(s.env, Unset(name));
    if vars.None? || env.None? then Overrun
    else Effect(State(vars.value, env.value), Unsets(s.vars, name, varsMemory) && Unsets(s.env, name, envMemory))
  }

  function ExportValue(s: State, name: string, value: string, envMemory: bool, varsMemory: bool): Effect {
    match SetEnvAny(s.env, name, value, envMemory)
    case None => Overrun
    case Some((env, ok)) =>
      if !ok then Effect(s.(env := env), false)
      else match Act(s.vars, Unset(name))
        case None => Overrun
        case Some(vars) => Effect(State(vars, env), Unsets(s.vars, name, varsMemory))
  }

  function ExportAny(s: State, name: string, given: Option<string>, envMemory: bool, varsMemory: bool): Effect {
    if given.None? && Search(s.vars, name).Past? then Overrun
    else ExportValue(s, name, Or(given, Or(Value(s.vars, name), "")), envMemory, varsMemory)
  }

  function ExecAny(s: State, cmd: Command): Effect {
    match cmd
    case SetCmd(name, value, memory) => SetAny(s, name, value, memory)
    case UnsetCmd(name, varsMemory, envMemory) => UnsetAny(s, name, varsMemory, envMemory)
    case ExportCmd(name, given, envMemory, varsMemory) => ExportAny(s, name, given, envMemory, varsMemory)
  }

  /** Whether a command succeeds, for a name without `=`. */
  predicate ExecOk(s: State, cmd: Command) {
    match cmd
    case SetCmd(name, value, memory) =>
      if Lookup(s.env, name).None? then memory else SetEnvOk(s.env, name, value, memory)
    case UnsetCmd(name, varsMemory, envMemory) =>
      UnsetOk(s.vars, name, varsMemory) && UnsetOk(s.env, name, envMemory)
    case ExportCmd(name, _, envMemory, varsMemory) =>
      SetEnvOk(s.env, name, Exported(s, cmd), envMemory) && UnsetOk(s.vars, name, varsMemory)
  }

  /** A command that is to give a name a value says that it succeeded exactly if the name has it then;
      for an export that holds as long as the session's buffer can be reallocated, and otherwise
      success still tells. */
  lemma SuccessTells(s: State, cmd: Command)
    requires Lookup(s.vars, cmd.name).None? || Lookup(s.env, cmd.name).None?
    ensures var slot := SlotOf(Exec(s, cmd), cmd.name);
            match cmd
            case SetCmd(_, value, _) => value != "" ==> (ExecOk(s, cmd) <==> slot in {Local(value), Global(value)})
            case UnsetCmd(_, _, _) => slot == Absent
            case ExportCmd(_, _, _, varsMemory) =>
              var value := Exported(s, cmd);
              value != "" && (varsMemory || ExecOk(s, cmd)) ==> (ExecOk(s, cmd) <==> slot == Global(value))
  {
    ExecSlot(s, cmd, cmd.name);
  }

  lemma SetEnvClean(env: seq<Pair>, name: string, value: string, memory: bool)
    requires WellFormed(env) && IsName(name)
    ensures SetEnvAny(env, name, value, memory) ==
            Some((SetEnv(env, name, value, memory), SetEnvOk(env, name, value, memory)))
  {
    ActClean(env, if value == "" then Unset(name) else Set(name, value, memory));
    CleanValue(env, name, memory);
  }

  lemma SetClean(s: State, name: string, value: string, memory: bool)
    requires WellFormed(s.vars) && WellFormed(s.env) && IsName(name)
    ensures var cmd := SetCmd(name, value, memory);
            SetAny(s, name, value, memory) == Effect(Exec(s, cmd), ExecOk(s, cmd))
  {
    hide Act, Unsets, SetEnvAny;
    CleanSearch(s.env, name);
    ActClean(s.vars, Set(name, value, memory));
    SetEnvClean(s.env, name, value, memory);
  }

  lemma UnsetClean(s: State, name: string, varsMemory: bool, envMemory: bool)
    requires WellFormed(s.vars) && WellFormed(s.env) && IsName(name)
    ensures var cmd := UnsetCmd(name, varsMemory, envMemory);
            UnsetAny(s, name, varsMemory, envMemory) == Effect(Exec(s, cmd), ExecOk(s, cmd))
  {
    hide Act, Unsets;
    ActClean(s.vars, Unset(name));
    ActClean(s.env, Unset(name));
    CleanValue(s.vars, name, varsMemory);
    CleanValue(s.env, name, envMemory);
  }

  lemma ExportClean(s: State, name: string, given: Option<string>, envMemory: bool, varsMemory: bool)
    requires WellFormed(s.vars) && WellFormed(s.env) && IsName(name)
    ensures var cmd := ExportCmd(name, given, envMemory, varsMemory);
            ExportAny(s, name, given, envMemory, varsMemory) == Effect(Exec(s, cmd), ExecOk(s, cmd))
  {
    hide Act, Unsets, SetEnvAny;
    CleanSearch(s.vars, name);
    ActClean(s.vars, Unset(name));
    CleanValue(s.vars, name, varsMemory);
    SetEnvClean(s.env, name, Or(given, Or(Lookup(s.vars, name), "")), envMemory);
  }

  /** For names without `=` no comparison runs past, and the commands are those on the ordered maps. */
  lemma ExecClean(s: State, cmd: Command)
    requires WellFormed(s.vars) && WellFormed(s.env) && IsName(cmd.name)
    ensures ExecAny(s, cmd) == Effect(Exec(s, cmd), ExecOk(s, cmd))
  {
    match cmd
    case SetCmd(name, value, memory) => SetClean(s, name, value, memory);
    case UnsetCmd(name, varsMemory, envMemory) => UnsetClean(s, name, varsMemory, envMemory);
    case ExportCmd(name, given, envMemory, varsMemory) => ExportClean(s, name, given, envMemory, varsMemory);
  }

  /** What a reference to any name stands for; none if a comparison runs past. */
  function ExpandAny(s: State, name: string, fail: bool): Option<string> {
    if name == "?" then Some(if fail then "1" else "0")
    else if Search(s.vars, name).Past? then None
    else if Value(s.vars, name).Some? then Value(s.vars, name)
    else if Search(s.env, name).Past? then None
    else Some(Or(Value(s.env, name), ""))
  }

  lemma ExpandClean(s: State, name: string, fail: bool)
    requires WellFormed(s.vars) && WellFormed(s.env) && IsName(name)
    ensures ExpandAny(s, name, fail) == Some(Expand(s, name, fail))
  {
    CleanSearch(s.vars, name);
    CleanSearch(s.env, name);
    CleanValue(s.vars, name, true);
    CleanValue(s.env, name, true);
  }

  lemma ValueClean(pairs: seq<Pair>, name: string)
    requires ArePairs(pairs) && Value(pairs, name).Some?
    ensures NUL !in Value(pairs, name).value
  {
    var k := Search(pairs, name).k;
    assert IsPair(pairs[k]);
  }

  // ----- the commands -----

  class Session {
    const vars: VarBuffer
    const env: VarBuffer

    ghost predicate Valid()
      reads this, vars, env, vars.varp, env.varp
    {
      && vars != env && (vars.varp != null ==> vars.varp != env.varp)
      && vars.Valid() && env.Valid()
    }

    ghost function View(): State
      reads vars, env
    {
      State(vars.pairs, env.pairs)
    }

    constructor ()
      ensures Valid() && View() == State([], []) && fresh(vars) && fresh(env)
    {
      vars := new VarBuffer();
      env := new VarBuffer();
    }

    method SetEnvironment(name: string, value: string, memory: bool) returns (ok: bool, inside: bool)
      requires Valid() && NUL !in name && NUL !in value
      modifies env, env.varp
      ensures Valid()
      ensures match SetEnvAny(old(env.pairs), name, value, memory)
              case None => !inside
              case Some((all, done)) => inside && env.pairs == all && ok == done
    {
      if value == "" {
        ok, inside := env.UnsetVar(name, memory);
      } else {
        ok, inside := env.SetVar(name, value, memory);
      }
    }

    method CmdSet(name: string, value: string, memory: bool) returns (ok: bool, inside: bool)
      requires Valid() && NUL !in name && NUL !in value
      modifies vars, env, vars.varp, env.varp
      ensures Valid()
      ensures match ExecAny(old(View()), SetCmd(name, value, memory))
              case Overrun => !inside
              case Effect(s, done) => inside && View() == s && ok == done
    {
      hide Act, Search, Unsets;
      ok := false;
      var oldvalue;
      oldvalue, inside := env.GetVar(name);
      if inside {
        if oldvalue.None? {
          ok, inside := vars.SetVar(name, value, memory);
        } else {
          ok, inside := SetEnvironment(name, value, memory);
        }
      }
    }

    method CmdUnset(name: string, varsMemory: bool, envMemory: bool) returns (ok: bool, inside: bool)
      requires Valid() && NUL !in name
      modifies vars, env, vars.varp, env.varp
      ensures Valid()
      ensures match ExecAny(old(View()), UnsetCmd(name, varsMemory, envMemory))
              case Overrun => !inside
              case Effect(s, done) => inside && View() == s && ok == done
    {
      hide Act, Search, Unsets, Packed, ArePairs;
      ok, inside := vars.UnsetVar(name, varsMemory);
      if inside {
        var status;
        status, inside := env.UnsetVar(name, envMemory);
        ok := ok && status;
      }
    }

    /** The value to export: the one given, or that of the session's variable, or nothing. */
    method ExportedValue(name: string, given: Option<string>) returns (value: string, inside: bool)
      requires vars.Valid() && NUL !in name && (given.Some? ==> NUL !in given.value)
      ensures NUL !in value && (inside <==> given.Some? || !Search(vars.pairs, name).Past?)
      ensures inside ==> value == Or(given, Or(Value(vars.pairs, name), ""))
    {
      value, inside := "", true;
      if given.Some? {
        value := given.value;
      } else {
        var tmp;
        tmp, inside := vars.GetVar(name);
        if tmp.Some? {
          ValueClean(vars.pairs, name);
          value := tmp.value;
        }
      }
    }

    method MoveToEnvironment(name: string, value: string, envMemory: bool, varsMemory: bool)
      returns (ok: bool, inside: bool)
      requires Valid() && NUL !in name && NUL !in value
      modifies vars, env, vars.varp, env.varp
      ensures Valid()
      ensures match ExportValue(old(View()), name, value, envMemory, varsMemory)
              case Overrun => !inside
              case Effect(s, done) => inside && View() == s && ok == done
    {
      hide Act, Unsets, SetEnvAny, Packed, ArePairs;
      ok, inside := SetEnvironment(name, value, envMemory);
      if inside && ok {
        ok, inside := vars.UnsetVar(name, varsMemory);
      }
    }

    method CmdExport(name: string, given: Option<string>, envMemory: bool, varsMemory: bool)
      returns (ok: bool, inside: bool)
      requires Valid() && NUL !in name && (given.Some? ==> NUL !in given.value)
      modifies vars, env, vars.varp, env.varp
      ensures Valid()
      ensures match ExecAny(old(View()), ExportCmd(name, given, envMemory, varsMemory))
              case Overrun => !inside
              case Effect(s, done) => inside && View() == s && ok == done
    {
      hide ExportValue, Search, Value, Packed, ArePairs;
      ok := false;
      var value;
      value, inside := ExportedValue(name, given);
      if inside {
        ok, inside := MoveToEnvironment(name, value, envMemory, varsMemory);
      }
    }

    method EnvExpand(name: string, fail: bool) returns (value: string, inside: bool)
      requires Valid() && NUL !in name
      ensures match ExpandAny(View(), name, fail)
              case None => !inside
              case Some(text) => inside && value == text
      ensures name == "?" ==> inside && (value == "0" <==> !fail) && (value == "1" <==> fail)
    {
      if name == "?" {
        return if fail then "1" else "0", true;
      }
      var found;
      found, inside := vars.GetVar(name);
      if inside && found.None? {
        found, inside := env.GetVar(name);
      }
      value := if found.Some? then found.value else "";
    }
  }
}
