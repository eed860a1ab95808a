# Verified models of NuttShell scripting, shell variables and audio streaming

This project models, in Dafny, the parts of NuttX and its applications that carry the most state
from one step to the next, and proves what they keep and what they compute.

**Scripts.** NuttShell (NSH) runs a script one line at a time. It has no syntax tree: two stacks of
fixed depth say whether lines are being executed or passed over, and `done` seeks back in the file.
`NshShell` is that machine, in place on its arrays; `NshSlots` is the same on values, with every
slot of the arrays, and `NshParser` and `NshScript` are the machine on lists of the live slots.
`NshLines` is about single lines: commands behind a keyword, and keywords out of place.
`ScriptSemantics` gives structured scripts a meaning by recursion over their tree, as the shell's
README describes it (`Intended`). `ScriptSimulation` and `ScriptTheorems` prove that the machine
agrees with that meaning, line by line, with errors ignored or not, on the lists and on the arrays.
`ScriptNesting`, `ScriptBreak` and `ScriptEscape` prove exactly for which scripts it does, as far as
loops in loops and `break` inside an `if` go, and `ScriptStale` shows where that has to end.
`ScriptStatus` is about `$?`.

**Words.** A line is cut into words by three different pieces of code that each decide which
characters are escaped. `Quoting`, `Tokeniser` and `NshArgument` prove that they agree, that
escapes are removed in place, and that written words and redirections are read back. `ExpandExact`
says exactly when a token with references comes to the text it means, for all values.

**Variables.** `VarPairs` and `ShellVars` treat the packed `name=value` buffer as an ordered list
of pairs, over any run of operations. `EnvCommands` adds the environment, which is kept in a buffer
of the same kind, and follows each name through any run of `set`, `unset` and `export`.

**Audio.** `PcmStream` and `PcmDecoder` prove that fast-forwarding, done in place on buffers of any
size, is one filter on stream positions. `AudioComposite` is a device made of several others:
operations with a way back, operations without one, and who frees a buffer.

**Smaller loops.** `BlockCopy` is the transfer loop of `dd`, `BitmapRle` the run-length encoder of
the bitmap converter, and `CopyArgv` the packing of an argument vector.

Where the code does not do what its documentation or its purpose suggests, the model follows the
code; a lemma names inputs on which the two differ, and another says exactly when they do not:

- A loop in the body of another runs its condition even when the outer body is being passed over
  (`NestedGoesWrong`, `NestingExact`).
- A `break` inside an `if` makes the next `else` or `fi` of that `if` an error, or lets it go to an
  `if` around the loop (`BreakInIf`, `EscapeGoesWrong`). With loops outside every `if` and every
  other loop, a script is run as documented exactly if no `break` that can be reached stands in an
  `if` (`BreakExact`). Loops inside ifs are another matter: there a script may come right again, by
  way of a slot that is no longer live (`StaleSlots`).
- With command substitution off, a token that holds both a live backquote and a reference loses
  text (`ExpandExactly`).
- The number of bytes to skip is kept in eight bits, so a large frame times a high rate
  fast-forwards with another period (`WideGapGoesWrong`, `FastForwardExact`).
- A name with `=` in it is taken for the variable named before the `=`, or compared past the end of
  a pair (`EqualsReplaces`, `NameExact`).
- `export NAME` for a name that is already in the environment removes it (`ExportKeeps`).
- A sector counter of 32 bits wraps, and skipping starts again (`WindowExact`).

`dafny verify dfyconfig.toml` checks the whole project.

## Model

| member | source | states |
|---|---|---|
| `NshShell.Shell.constructor` | apps/nshlib/nsh.h:707-799 | both stacks start with nothing live and slot 0 normal, for any depth |
| `NshShell.Shell.CmdEnabled` | apps/nshlib/nsh_parse.c:1713-1783 | on the arrays, processing is enabled exactly when the machine on the live slots says so |
| `NshShell.Shell.ResetLoops` | apps/nshlib/nsh_parse.c:1964-1972 | a rejected loop line empties the loop stack, leaves the if stack alone and keeps the invariant |
| `NshShell.Shell.ResetIfs` | apps/nshlib/nsh_parse.c:2128-2134 | a rejected if line empties the if stack, leaves the loop stack alone and keeps the invariant |
| `NshShell.Shell.EnterLoop` | apps/nshlib/nsh_parse.c:1808-1863 | `while` or `until` pushes one entry or empties the stack, for every context, with the index in range |
| `NshShell.Shell.StartBody` | apps/nshlib/nsh_parse.c:1867-1884 | `do` is accepted right after a condition only, and changes nothing but the state of the top entry |
| `NshShell.Shell.EndLoop` | apps/nshlib/nsh_parse.c:1887-1947 | `done` drops the top entry and asks for a seek exactly if it was enabled, and the exit marked as impossible is not reached |
| `NshShell.Shell.HandleLoop` | apps/nshlib/nsh_parse.c:1790-1973 | for any line and any slots, live or not, the arrays hold what the machine on slots says, which keeps indices in range, slot 0 normal and the slots below the top in their bodies |
| `NshShell.Shell.EnterIf` | apps/nshlib/nsh_parse.c:2022-2043 | `if` pushes one entry, disabled when its surroundings are, or empties the stack |
| `NshShell.Shell.AdvanceIf` | apps/nshlib/nsh_parse.c:2048-2082 | `then` and `else` are accepted in one state only and change nothing but the top entry |
| `NshShell.Shell.EndIf` | apps/nshlib/nsh_parse.c:2086-2115 | `fi` moves the index down and leaves the slot as it was, and the exit marked as impossible is not reached |
| `NshShell.Shell.HandleIf` | apps/nshlib/nsh_parse.c:1981-2135 | for any line and any slots the arrays hold what the machine on slots says |
| `NshShell.Shell.SaveResult` | apps/nshlib/nsh_parse.c:423-480 | a status goes to a pending loop condition, else to a pending if condition, else to the last status |
| `NshShell.Shell.Break` | apps/nshlib/nsh_parse.c:2680-2703 | the if index becomes what it was when the loop began, lower or higher, no slot but the loop's changes, and the invariant survives |
| `NshShell.Shell.Execute` | apps/nshlib/nsh_parse.c:486-758 | only `break` changes the parser; any other command changes the world alone |
| `NshShell.Shell.ParseCommand` | apps/nshlib/nsh_parse.c:2321-2403 | one line of any kind, from any slots: the new slots, world, error and seek |
| `NshShell.Shell.FinishCommand` | apps/nshlib/nsh_parse.c:2391-2531 | an empty or passed-over line is no error and leaves the last status; others are executed and their status stored |
| `NshShell.Shell.Script` | apps/nshlib/nsh_script.c:106-146 | any number of lines of any script: the slots, place, world and result of the machine on slots |
| `NshSlots.TopInside` | apps/nshlib/nsh_parse.c:1906-2110 | a top slot that is not normal is not slot 0: why the two exits marked as impossible are |
| `NshSlots.LoopLineView` | apps/nshlib/nsh_parse.c:1790-1973 | loop words do to the slots what they do to the lists of live slots |
| `NshSlots.IfLineView` | apps/nshlib/nsh_parse.c:1981-2135 | if words do to the slots what they do to the lists of live slots |
| `NshSlots.SaveView` | apps/nshlib/nsh_parse.c:423-480 | so does a status |
| `NshSlots.BreakView` | apps/nshlib/nsh_parse.c:2680-2703 | so does a break, unless it moves the if index up |
| `NshSlots.ParseView` | apps/nshlib/nsh_parse.c:2321-2531 | one line of any kind agrees in world and seek always, and in stacks, status and error unless it moves the if index up |
| `NshSlots.LostStays` | apps/nshlib/nsh_parse.c:2691 | once a break has moved the if index up, the lists do not claim to follow the slots again |
| `NshSlots.TurnsFollow` | apps/nshlib/nsh_script.c:106-146 | a run of any script on the slots is the run on the lists, unless that has lost them |
| `NshLines.BehindKeyword` | apps/nshlib/nsh_parse.c:1866-2082 | from any state in which `then`, `else` or `do` is in place, a command on the line of the keyword does to world, slots, status, error and place in the file what it does on a line of its own |
| `NshLines.InTwoTurns` | apps/nshlib/nsh_script.c:106-146 | so one turn of the script loop on such a line is two turns on the lines it can be split into |
| `NshLines.RunAsCommand` | apps/nshlib/nsh_parse.c:2391-2531 | a keyword behind another is not looked for: it is run as a command |
| `NshLines.NoSeek` | apps/nshlib/nsh_parse.c:1887-1947 | only `done` asks for another place in the file, and only in the body of a loop that goes on |
| `NshLines.LoopRefused` | apps/nshlib/nsh_parse.c:1790-1973 | a line whose loop words are out of place runs nothing, leaves no loop open and every `if` as it was, and is an error unless an `if` waits for its condition |
| `NshLines.LoopHandsOn` | apps/nshlib/nsh_parse.c:1790-1973 | every other line is handed on, without the loop word |
| `NshLines.IfRefused` | apps/nshlib/nsh_parse.c:1981-2135 | a line whose if words are out of place runs nothing and leaves no `if` open and every loop as it was |
| `NshLines.IfHandsOn` | apps/nshlib/nsh_parse.c:1981-2135 | of every other line, what stands behind the if words is what is left to run |
| `NshLines.BreakRefused` | apps/nshlib/nsh_parse.c:2680-2703 | `break` with words behind it fails, and outside every loop it does nothing |
| `NshLines.ReadOnce` | apps/nshlib/nsh_parse.c:1917-1926 | a file whose position cannot be set is read straight through, each line once |
| `NshLines.NeverInLoop` | apps/nshlib/nsh_script.c:120-130 | in a file whose position cannot be read no loop is ever entered |
| `NshScript.RunUnfold` | apps/nshlib/nsh_script.c:106-146 | a run is one turn and the rest of the run, and a halted run stays as it is |
| `NshScript.RunAdd` | apps/nshlib/nsh_script.c:106-146 | a run can be cut anywhere |
| `ScriptSemantics.Walk` | apps/nshlib/nsh_parse.c:1713-1783 | what the machine makes of structured code: passing over a disabled `if` changes neither world nor status, and only a break directly in a loop body changes the mode |
| `ScriptSimulation.StepCmd` | apps/nshlib/nsh_parse.c:2391-2531 | one command line, in each mode |
| `ScriptSimulation.StepBreak` | apps/nshlib/nsh_parse.c:2680-2703 | one `break` line, in each mode and place |
| `ScriptSimulation.StepLoop` | apps/nshlib/nsh_parse.c:1808-1863 | the head of a loop in each mode: it runs its condition unless an `if` is disabled |
| `ScriptSimulation.HeadIf` | apps/nshlib/nsh_parse.c:1993-2063 | from `if` to its branch, in two lines |
| `ScriptSimulation.HeadLoop` | apps/nshlib/nsh_parse.c:1808-1883 | from `while` or `until` to its body, in two lines |
| `ScriptSimulation.Simulate` | apps/nshlib/nsh_parse.c:1790-2135 | from any line of any script in any mode, the machine passes over structured code exactly as `Walk` says, both stacks restored and no slot lost |
| `ScriptSimulation.SimulateIf` | apps/nshlib/nsh_parse.c:1981-2135 | the same for if-then-else-fi |
| `ScriptSimulation.SimulateLoop` | apps/nshlib/nsh_parse.c:1790-1973 | the same for loops, with every seek back to the top |
| `ScriptTheorems.PassedOver` | apps/nshlib/nsh_parse.c:2391-2403 | code without direct loops that is passed over runs no command and leaves the status |
| `ScriptTheorems.WalkAsIntended` | apps/nshlib/README.txt:103-139 | without directly nested loops, what the machine makes of a script is its documented meaning, for every fuel |
| `ScriptTheorems.LoopAsIntended` | apps/nshlib/README.txt:119-139 | the same for a loop: conditions decide, break leaves, errors stop |
| `ScriptTheorems.MoreFuel` | apps/nshlib/README.txt:119-139 | a meaning that has settled does not depend on the bound on iterations |
| `ScriptTheorems.MachineWalks` | apps/nshlib/nsh_script.c:106-146 | every structured script, nested loops included: the run halts in the state `Walk` ends in with both stacks restored, or is still going |
| `ScriptTheorems.MachineAsIntended` | apps/nshlib/nsh_parse.c:1790-2135 | without directly nested loops the line machine ends in the documented state, with world, last status, result and both stacks, or runs on when the meaning does not settle |
| `ScriptTheorems.HaltedAsIntended` | apps/nshlib/nsh_script.c:106-146 | conversely, a machine that has halted has done what the script means |
| `ScriptTheorems.SkippedBlock` | apps/nshlib/nsh_parse.c:1843-1862 | a block met while processing is disabled runs no command, keeps the last status, and both stacks come back |
| `ScriptTheorems.NeverLost` | apps/nshlib/nsh_parse.c:2686-2696 | at no time of a structured script does a break move the if index up |
| `ScriptTheorems.SlotsInStep` | apps/nshlib/nsh_script.c:106-146 | so the arrays go through it in step with the lists, after any number of lines |
| `ScriptTheorems.SlotsAsIntended` | apps/nshlib/nsh_script.c:106-146 | on the arrays, without directly nested loops, a script ends in its documented state with nothing left live, or runs on when its meaning does not settle |
| `ScriptNesting.LoopCosts` | apps/nshlib/nsh_parse.c:1722-1729 | in worlds that count the commands run, with errors ignored, a loop that no disabled `if` holds back costs at least one, even in a body that is being passed over |
| `ScriptNesting.UnnestedIsFaithful` | apps/nshlib/nsh_parse.c:1790-2135 | whatever the commands do, and whether or not errors stop it, a script without directly nested loops halts in its documented state whenever it has one |
| `ScriptNesting.NestedGoesWrong` | apps/nshlib/nsh_parse.c:1722-1729 | every script with directly nested loops has command results for which the machine, if it halts, has run too many commands |
| `ScriptNesting.NestingExact` | apps/nshlib/nsh_parse.c:1722-1729 | the machine is faithful to a script, whatever its commands do, if and only if no reachable loop has a loop directly in its body |
| `ScriptBreak.BreakKeepsIfs` | apps/nshlib/nsh_parse.c:2686-2696 | a break keeps the if stack exactly if no `if` was opened since the loop began |
| `ScriptBreak.BreakInIf` | apps/nshlib/nsh_parse.c:2065-2104 | after a break in any number of ifs and in either part of them, the next `else` or `fi` is taken for one of the `if` around the loop, or is an error if none fits |
| `ScriptBreak.LeaveGoesWrong` | apps/nshlib/README.txt:133-139 | a loop left by `if ... break ... fi` is meant to end well, and ends with an error or a failed status |
| `ScriptEscape.EscapeEnds` | apps/nshlib/README.txt:103-139 | every break in an `if` that can be reached has results of the other commands that lead to it, on which the script is meant to go on to its end |
| `ScriptEscape.StopsInIf` | apps/nshlib/nsh_parse.c:2065-2104 | on them the machine, when errors stop it, stops at the `else` or `fi` behind the break, however deep in ifs it stands |
| `ScriptEscape.EscapeGoesWrong` | apps/nshlib/nsh_parse.c:2686-2696 | so every script with such a break, its loops outside every `if` and every other loop, ends with an error where it is meant to end well |
| `ScriptEscape.BreakExact` | apps/nshlib/nsh_parse.c:2686-2696 | of these scripts, the machine is faithful to exactly those in which no break that can be reached stands in an `if` of its loop |
| `ScriptStale.StaleSlots` | apps/nshlib/nsh_parse.c:2686-2696 | with loops inside ifs such a break need not go wrong: when every command succeeds, a family of scripts that reach one ends as documented, the outer break moving the if index back up onto a slot that was no longer live |
| `ScriptStatus.AfterCommand` | apps/nshlib/nsh_parse.c:423-480 | after a command `$?` is "0" exactly if it succeeded and "1" exactly if it failed, and one that is passed over leaves it |
| `ScriptStatus.AfterCondition` | apps/nshlib/nsh_parse.c:423-480 | after the condition of an `if` or a loop `$?` is "0", whichever way that went |
| `Quoting.Parity` | apps/nshlib/nsh_parse.c:1144-1173 | the flag kept from the left agrees with the parity of backslashes counted from the right |
| `Quoting.UnescapeAppend` | apps/nshlib/nsh_parse.c:1066-1112 | where no escape is pending, text can be unescaped in parts |
| `Quoting.UnescapeKeeps` | apps/nshlib/nsh_parse.c:1066-1112 | reading pairs from the left is dropping exactly the backslashes that are not themselves escaped |
| `Quoting.StrChr` | apps/nshlib/nsh_parse.c:981-1005 | the first occurrence that is not escaped, or none |
| `Quoting.DropFirst` | apps/nshlib/nsh_parse.c:1077-1088 | the rest of the string moves down by one and nothing outside it changes |
| `Quoting.Dequote` | apps/nshlib/nsh_parse.c:1066-1112 | in place, the string becomes its recursive unescape, and nothing outside it changes |
| `Tokeniser.AtFirst` | apps/nshlib/nsh_parse.c:1138-1173 | what a token means, split at its first live dollar sign or backquote |
| `Tokeniser.ExpandMeaning` | apps/nshlib/nsh_parse.c:1120-1364 | without a live backquote a token comes to its literals and looked-up values, concatenated and unescaped, and to nothing if a brace is left open |
| `Tokeniser.SkipsExactly` | apps/nshlib/nsh_parse.c:1459-1472 | leading blanks are dropped, all of them, and nothing else |
| `Tokeniser.EscapeReads` | apps/nshlib/nsh_parse.c:1066-1112 | a word with its special characters escaped shows none of them and unescapes to the word |
| `Tokeniser.ExpandEscaped` | apps/nshlib/nsh_parse.c:1120-1209 | an escaped word is expanded to the word itself, whatever the variables hold |
| `Tokeniser.ReadPlain` | apps/nshlib/nsh_parse.c:1530-1694 | a word without special characters is one argument as it stands |
| `Tokeniser.ReadBare` | apps/nshlib/nsh_parse.c:1530-1694 | an escaped word is one argument and ends at the blank after it |
| `Tokeniser.ReadQuoted` | apps/nshlib/nsh_parse.c:1512-1694 | a word in double quotes is one argument, the empty word included |
| `Tokeniser.ReadRedirection` | apps/nshlib/nsh_parse.c:1476-1490 | `>` and `>>` are arguments of their own, and two signs are not one, whatever follows |
| `Tokeniser.ReadComment` | apps/nshlib/nsh_parse.c:1494-1500 | at `#` the line ends, whatever the comment says |
| `Tokeniser.LineRoundTrip` | apps/nshlib/nsh_parse.c:1443-1706 | any list of words, as they are, escaped or quoted, and redirections, with any blanks between them and perhaps a comment at the end, is read back as exactly those words and signs |
| `ExpandExact.ExpandExactly` | apps/nshlib/nsh_parse.c:1120-1364 | for every token with closed braces and all values, the text meant is returned if and only if the token does not hold both a reference and a live backquote |
| `ExpandExact.Concatenated` | apps/nshlib/nsh_parse.c:1268-1349 | once something is concatenated, the result is the text without the pieces that end in a live backquote |
| `ExpandExact.NotConcatenated` | apps/nshlib/nsh_parse.c:1174-1209 | before that the same, or the whole token if no reference is met |
| `ExpandExact.Compared` | apps/nshlib/nsh_parse.c:1120-1364 | that text comes out different from the one meant exactly if a live backquote is met, with an escape pending before it or not |
| `NshArgument.CountBack` | apps/nshlib/nsh_parse.c:1152-1158 | the backward count finds a character quoted exactly when the forward flag does |
| `NshArgument.FindReference` | apps/nshlib/nsh_parse.c:1138-1173 | the first dollar sign or backquote that is not escaped |
| `NshArgument.TakeReference` | apps/nshlib/nsh_parse.c:1263-1340 | reads `${name}` or `$name` off the line: its value and the rest, or an unclosed brace |
| `NshArgument.ArgExpand` | apps/nshlib/nsh_parse.c:1120-1364 | in place, for every token, backquotes included, returns the specified expansion; each turn shortens what is left |
| `NshArgument.TokenEnd` | apps/nshlib/nsh_parse.c:1631-1663 | the forward prev/quoted automaton stops at the first terminator that is not escaped |
| `NshArgument.Argument` | apps/nshlib/nsh_parse.c:1443-1706 | one argument and the rest of the line, as specified, with the rest left in the buffer |
| `NshArgument.ParseArguments` | apps/nshlib/nsh_parse.c:2418-2428 | the words of a whole line, up to the number of slots |
| `VarPairs.ApplyWellFormed` | apps/nshlib/nsh_vars.c:238-364 | every operation keeps names unique and free of `=` and NUL |
| `VarPairs.ApplyLookup` | apps/nshlib/nsh_vars.c:207-364 | set gives the name its value, unset and a failed set remove it, and no other name changes |
| `VarPairs.RunLeaves` | apps/nshlib/nsh_vars.c:238-364 | after any run the list holds the pairs it did not name, in order, then the successful settings not followed by another operation on the same name, in the order they were made |
| `VarPairs.RunWellFormed` | apps/nshlib/nsh_vars.c:238-364 | names stay unique over any run |
| `VarPairs.SearchAt` | apps/nshlib/nsh_vars.c:59-121 | what a search for any name comes to: the first pair it matches, none, or a pair whose whole text it is, which is compared past its end |
| `VarPairs.NameExact` | apps/nshlib/nsh_vars.c:59-121 | a search finds the variable of that name and no other, and stays inside the strings, whatever is stored, if and only if the name holds no `=` |
| `VarPairs.EqualsReplaces` | apps/nshlib/nsh_vars.c:238-301 | setting `a=b` replaces the variable `a` when its value begins with `b=` |
| `VarPairs.ActClean` | apps/nshlib/nsh_vars.c:238-364 | for names without `=` the operations are those on the ordered list of names |
| `ShellVars.CmpName` | apps/nshlib/nsh_vars.c:59-75 | for any name, the comparison stops inside both strings if and only if the name is not the whole text of the pair, and is true exactly if that text begins with the name and `=` |
| `ShellVars.VarBuffer.constructor` | apps/nshlib/nsh_vars.c:59-418 | a session starts without a buffer and without variables |
| `ShellVars.VarBuffer.FindVar` | apps/nshlib/nsh_vars.c:101-121 | the offset of the first pair that any name matches, or none, and whether a comparison ran past a pair |
| `ShellVars.CloseGap` | apps/nshlib/nsh_vars.c:154-166 | what follows the gap moves down, in place |
| `ShellVars.VarBuffer.RemoveVar` | apps/nshlib/nsh_vars.c:139-178 | the buffer then packs the list without that pair, and an offset outside the buffer is refused |
| `ShellVars.VarBuffer.GetVar` | apps/nshlib/nsh_vars.c:207-231 | the value of the pair that any name matches, or none |
| `ShellVars.VarBuffer.Append` | apps/nshlib/nsh_vars.c:269-300 | the grown buffer packs the list with the new pair at its end |
| `ShellVars.VarBuffer.SetVar` | apps/nshlib/nsh_vars.c:238-301 | for any name, what it matches is replaced by a new pair at the end; without memory it fails and loses that pair only |
| `ShellVars.VarBuffer.UnsetVar` | apps/nshlib/nsh_vars.c:309-364 | for any name, removes the pair it matches only, even when it reports that memory could not be reallocated, and says when it does |
| `ShellVars.VarBuffer.ForEach` | apps/nshlib/nsh_vars.c:386-418 | the callback gets each pair in order until it returns nonzero, which is then the result |
| `ShellVars.VisitAll` | apps/nshlib/nsh_vars.c:386-418 | a callback that returns zero sees every pair exactly once, in order |
| `ShellVars.VisitParts` | apps/nshlib/nsh_vars.c:386-418 | one that returns nonzero ends the visit with that result, and no later pair is seen |
| `EnvCommands.ExecSlot` | apps/nshlib/nsh_envcmds.c:420-577 | what one command makes of one name: absent, a session variable or an environment variable, and never both |
| `EnvCommands.RunSlots` | apps/nshlib/nsh_envcmds.c:420-577 | over any run no name is in both places, and each name follows its own commands whatever those on other names do |
| `EnvCommands.KeepsExactly` | apps/nshlib/nsh_envcmds.c:420-577 | which commands on a name leave what it stands for: exactly those listed |
| `EnvCommands.LastValue` | apps/nshlib/nsh_parse.c:1013-1058 | `$name` stands for the last value it was set or exported with, as long as each later command on it is one of those |
| `EnvCommands.SuccessTells` | apps/nshlib/nsh_envcmds.c:420-577 | a command that is to give a name a value reports success exactly if the name has it then, for an export as long as the session buffer can be reallocated |
| `EnvCommands.ExportKeeps` | apps/nshlib/nsh_envcmds.c:540-577 | exporting by name alone keeps what the name stands for, with memory or without, if and only if it is not an environment variable with a value; then it is removed |
| `EnvCommands.ExecClean` | apps/nshlib/nsh_envcmds.c:420-577 | for names without `=` no command compares past a pair, and each does what is said of one name at a time |
| `EnvCommands.ExpandClean` | apps/nshlib/nsh_parse.c:1013-1058 | the same for `$name` |
| `EnvCommands.Session.SetEnvironment` | nuttx/sched/environ/env_setenv.c:82-184 | for any name, the environment buffer with the variable set, or unset for an empty value, or lost without memory, and the result |
| `EnvCommands.Session.CmdSet` | apps/nshlib/nsh_envcmds.c:420-477 | sets the environment variable if there is one of that name and the session variable otherwise, with the result |
| `EnvCommands.Session.CmdUnset` | apps/nshlib/nsh_envcmds.c:485-516 | removes the name in both places, with the result |
| `EnvCommands.Session.CmdExport` | apps/nshlib/nsh_envcmds.c:524-577 | for any name, moves the given or current value to the environment, and keeps the session variable if that fails, with the result |
| `EnvCommands.Session.EnvExpand` | apps/nshlib/nsh_parse.c:1013-1058 | for `?`, "0" exactly after a success; else the session variable, else the environment variable, else nothing |
| `PcmStream.PlayedWhole` | nuttx/audio/pcm_decode.c:508-661 | at one rate the result does not depend on how the stream is cut into buffers |
| `PcmStream.KeptIsSampled` | nuttx/audio/pcm_decode.c:508-661 | skip and partial counts come to one filter on stream positions, from any state |
| `PcmStream.StreamIsSampled` | nuttx/audio/pcm_decode.c:508-661 | for every frame size, rate and partition, the bytes played are those at the first `align` positions of each period |
| `PcmStream.WideGapGoesWrong` | nuttx/audio/pcm_decode.c:129 | every frame size and rate whose gap needs more than eight bits has a stream that is not played as meant |
| `PcmStream.FastForwardExact` | nuttx/audio/pcm_decode.c:540 | every stream keeps exactly one frame in `rate` if and only if `align * (rate - 1)` is at most 255 |
| `PcmStream.RatesKeepFrames` | nuttx/audio/pcm_decode.c:434-661 | under any changes of rate what is played is a selection of the source, in order, in which the bytes of a source frame are kept or dropped together |
| `PcmStream.GapIsWhole` | nuttx/audio/pcm_decode.c:540 | the stored gap is a whole number of frames for frames of 1, 2 and 4 bytes at any rate |
| `PcmDecoder.CopyDown` | nuttx/audio/pcm_decode.c:643-646 | bytes copied to a lower place are the source bytes as they were, and what is still unread is unchanged |
| `PcmDecoder.Decoder.constructor` | nuttx/audio/pcm_decode.c:120-130 | a stream starts with nothing to skip and no partial frame |
| `PcmDecoder.Decoder.Configure` | nuttx/audio/pcm_decode.c:434-494 | starting and stopping begin afresh, a change of rate carries on, and what was played is untouched |
| `PcmDecoder.Decoder.FinishPartial` | nuttx/audio/pcm_decode.c:561-595 | completes the frame left over from the last buffer |
| `PcmDecoder.Decoder.SkipAhead` | nuttx/audio/pcm_decode.c:606-618 | skips as much of the gap as the buffer holds |
| `PcmDecoder.Decoder.TakeFrame` | nuttx/audio/pcm_decode.c:622-654 | copies a frame or the part of it that is there, without underflow of the counters |
| `PcmDecoder.Decoder.CopyFrames` | nuttx/audio/pcm_decode.c:602-660 | the copy loop ends, and the buffer then holds exactly the bytes to keep |
| `PcmDecoder.Decoder.Subsample` | nuttx/audio/pcm_decode.c:508-661 | in place, the buffer's data become the bytes kept and the carry is the one after them, tiny buffers included; without a rate nothing changes |
| `PcmDecoder.Decoder.EnqueueBuffer` | nuttx/audio/pcm_decode.c:1038-1065 | over any run of buffers and rate changes, all that the lower driver was given follows from the buffers handled |
| `PcmDecoder.Decoder.PlaysSampled` | nuttx/audio/pcm_decode.c:508-661 | after any run of buffers at one rate, what the lower driver was given is one position filter over all that was received |
| `PcmDecoder.Decoder.PlaysFrames` | nuttx/audio/pcm_decode.c:434-661 | after any run of buffers and rate changes, with frames of 1, 2 or 4 bytes, it is a selection of whole source frames, in order, with at most a partial one at the end of what was received |
| `AudioComposite.UpwardExactly` | nuttx/audio/audio_comp.c:339-357 | the calls on the way up are one to each device that offers the operation, in ascending order |
| `AudioComposite.DownwardExactly` | nuttx/audio/audio_comp.c:359-370 | on the way down they are the same in descending order |
| `AudioComposite.Composite.Climb` | nuttx/audio/audio_comp.c:339-357 | devices are asked in order up to the first real failure, which is the result; without one it is the answer of the highest device that did not decline, or the default if all did |
| `AudioComposite.Composite.RollBack` | nuttx/audio/audio_comp.c:359-370 | each lower-indexed device that offers the inverse gets it, in reverse order |
| `AudioComposite.Composite.Raise` | nuttx/audio/audio_comp.c:325-375 | the state of every device, every call in order, and the result, with or without a failure |
| `AudioComposite.Composite.DoStart` | nuttx/audio/audio_comp.c:325-375 | start is undone by stop; its result is nonnegative exactly if no device fails and some device handles it |
| `AudioComposite.Composite.DoResume` | nuttx/audio/audio_comp.c:483-533 | resume is undone by pause; its result is nonnegative exactly if no device fails and some device handles it |
| `AudioComposite.Composite.DoReserve` | nuttx/audio/audio_comp.c:771-838 | reserve is undone by release; its result is nonnegative exactly if no device fails |
| `AudioComposite.NoneActive` | nuttx/audio/audio_comp.c:325-375 | after a failure no device is left active if and only if every device that had handled the operation carries out its inverse |
| `AudioComposite.AllActive` | nuttx/audio/audio_comp.c:325-375 | after a success the active devices are exactly those that handled the operation |
| `AudioComposite.VerdictMerge` | nuttx/audio/audio_comp.c:301-309 | merging results from the highest device down gives the lowest-indexed failure, or else the lowest-indexed handler's result |
| `AudioComposite.VerdictIsLowest` | nuttx/audio/audio_comp.c:301-309 | said of the devices: the answer of the lowest that failed, or else of the lowest that did not decline, or the default |
| `AudioComposite.Composite.Wind` | nuttx/audio/audio_comp.c:387-423 | every device that offers the operation is asked, in reverse order, whatever others answer |
| `AudioComposite.Composite.DoShutdown` | nuttx/audio/audio_comp.c:289-314 | the same for shutdown over all devices, with its result |
| `AudioComposite.Composite.DoStop` | nuttx/audio/audio_comp.c:387-423 | the same for stop |
| `AudioComposite.Composite.DoPause` | nuttx/audio/audio_comp.c:435-471 | the same for pause |
| `AudioComposite.Composite.DoRelease` | nuttx/audio/audio_comp.c:848-888 | the same for release, which succeeds if no device handles it |
| `AudioComposite.Composite.AllocBuffer` | nuttx/audio/audio_comp.c:543-569 | the first device that does not decline allocates, or else the fallback does, and no later device is asked |
| `AudioComposite.Composite.FreeBuffer` | nuttx/audio/audio_comp.c:578-605 | the first device that does not decline frees, or else the fallback does, and no later device is asked |
| `AudioComposite.SameOwner` | nuttx/audio/audio_comp.c:543-605 | over any run, with devices that allocate and free or decline both, whoever allocated a buffer is the one who frees it |
| `BlockCopy.SectorsAreInput` | apps/nshlib/nsh_ddcmd.c:338-343 | the sectors are the input, each of full size, padded with zeros by less than one sector at the end |
| `BlockCopy.ChosenIsWindow` | apps/nshlib/nsh_ddcmd.c:347-362 | the sectors written are those from `skip` on, at most `count`, unless the counter wraps in the middle of them |
| `BlockCopy.WindowExact` | apps/nshlib/nsh_ddcmd.c:347-362 | that holds for every input of a size if and only if nothing is skipped, the window ends before the counter wraps, or the input does |
| `BlockCopy.CopyIsWindow` | apps/nshlib/nsh_ddcmd.c:323-364 | the bytes to write are the padded sectors of the window |
| `BlockCopy.CopyIsInput` | apps/nshlib/nsh_ddcmd.c:323-364 | asked for everything, the transfer copies the input and pads it |
| `BlockCopy.Transfer.constructor` | apps/nshlib/nsh_ddcmd.c:225-323 | a transfer starts at the first sector of the input with nothing written, for any block size |
| `BlockCopy.Transfer.DdRead` | apps/nshlib/nsh_ddcmd.c:140-163 | for every pattern of short reads, a whole sector or what is left of the input is read, and the end is noted when nothing is; it fails exactly if a read does |
| `BlockCopy.Transfer.DdWrite` | apps/nshlib/nsh_ddcmd.c:109-134 | for every pattern of short writes the whole sector is written; it fails exactly if a write does, with a first part written |
| `BlockCopy.Transfer.Pad` | apps/nshlib/nsh_ddcmd.c:340-343 | only the bytes after the data become zero |
| `BlockCopy.Transfer.Copy` | apps/nshlib/nsh_ddcmd.c:323-364 | the transfer succeeds exactly if no read or write fails, however short they are; then the output is exactly the sectors chosen, and otherwise a first part of them |
| `BitmapRle.QuantizeNearest` | apps/tools/bitmap_converter.py:48-57 | the smallest index at the least sum of squared channel differences, whether or not the color is in the palette |
| `BitmapRle.ShownOnce` | apps/tools/bitmap_converter.py:48-57 | so a row has one list of indices only |
| `BitmapRle.GreedyFirst` | apps/tools/bitmap_converter.py:65-74 | a run goes on as long as the color stays and the count fits in a byte |
| `BitmapRle.FewestRuns` | apps/tools/bitmap_converter.py:59-79 | no list of runs of 1 to 255 pixels that ends in the same row is shorter |
| `BitmapRle.EncodeRow` | apps/tools/bitmap_converter.py:59-79 | the runs decode, pixel by pixel, to the smallest index of the nearest palette color, each has 1 to 255 pixels, and no other such list is shorter |
| `CopyArgv.ReadsBack` | nuttx/binfmt/binfmt_copyargv.c:138-146 | each string reads back from its place, and the next begins right behind it |
| `CopyArgv.Measure` | nuttx/binfmt/binfmt_copyargv.c:100-120 | the first pass counts arguments and bytes, and gives up beyond 256 arguments |
| `CopyArgv.PointerStored` | nuttx/binfmt/binfmt_copyargv.c:138-146 | a pointer stored in the table disturbs neither the others nor the strings behind the table |
| `CopyArgv.StringPlaced` | nuttx/binfmt/binfmt_copyargv.c:138-146 | a string placed behind the others disturbs neither them nor the table |
| `CopyArgv.Fill` | nuttx/binfmt/binfmt_copyargv.c:138-150 | in one allocation, the second pass fills what the first computed: a pointer to each string, a null pointer, and the strings |
| `CopyArgv.Binary.Copy` | nuttx/binfmt/binfmt_copyargv.c:84-154 | every argument vector is copied so that it reads back the same, without gaps, filling the allocation; or it is refused for its length or for lack of memory, with nothing left behind |

## Left out

- Semicolon-separated commands and offsets within a line: one command to a line, so a loop's top is the start of its line.
- Redirection, background commands, `nice`, and commands that start applications: a command is an opaque function of words, world and last status.
- Command substitution with backquotes: off, as the configuration without it.
- Splitting of expanded variables into several arguments, and keywords that come out of an expansion: the words of a line are what the tokeniser returns.
- Nested scripts (`sh` inside a script), and `set` changing its error flag in the middle of a script.
- Lines longer than the line buffer, which the source reads in pieces.
- ScriptTheorems.MachineAsIntended: takes files whose position can be read and set (otherwise the source refuses every loop), and scripts that nest no deeper than the stacks and keep each `break` that can be reached out of an `if` opened in its loop. For nesting of loops the condition is exact (`NestingExact`), and for `break` it is where loops stand outside every `if` and every other loop (`BreakExact`). Elsewhere the other half is not stated: a later break of an outer loop can bring the if index back, so that the results which lead to such a break do not show the script going wrong (`StaleSlots`).
- ScriptSimulation.Simulate: the same shape of scripts, since after a `break` inside an `if` the machine is not where the structure of the script says; `BreakInIf` and `StopsInIf` say where it is.
- ScriptSimulation.SimulateIf: see the line above.
- ScriptSimulation.SimulateLoop: see the line above.
- ScriptTheorems.MachineWalks: see the line above.
- ScriptNesting.LoopCosts: is about worlds that count the commands; for any world, `HeadLoop` says that the condition is run.
- NshShell.Shell.Script: states the run for any number of lines given in advance, since a script may not end.
- ShellVars.CmpName: what the source reads after a comparison that runs past both strings is not modelled, and an operation in which that happens is only said to do it.
- The trimming of white space from the value given to `set`, and the options `-e`, `+e`, `-x` and `+x`: the value is taken as trimmed.
- Reading the WAV header and the first buffer, and how the lower driver takes a buffer: a stream starts after its header and every buffer is accepted.
- Audio sessions as separate objects (the multi-session configuration), and the allocation of the session table in reserve.
- The size of audio buffers in 16 or 32 bits, and `int` sizes elsewhere: the counters are shown to stay within the buffer, and only `skip` and the sector counter are given their width.
- Parsing of the `dd` options, opening and closing files, and its statistics.
- Choice of the palette, and writing the C++ file, in the bitmap converter.
- Locking, logging and error messages everywhere.
