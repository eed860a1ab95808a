/** Directly nested loops: exactly the scripts on which the line machine departs from the
    documented meaning.  The departures are exhibited in worlds that prescribe the status of
    each command and count the commands run. */
module ScriptNesting {
  import opened Wrappers
  import opened NshParser
  import opened NshScript
  import opened ScriptSemantics
  import opened ScriptPositions
  import opened ScriptSimulation
  import opened ScriptTheorems

  /** The statuses (true: failure) of the commands still to come, and how many have run. */
  datatype Plan = Plan(todo: Stack<bool>, used: nat)

  function Follow(words: Line, plan: Plan, fail: bool): (Plan, bool) {
    match plan.todo
    case Bottom => (Plan(Bottom, plan.used + 1), false)
    case Push(failed, rest) => (Plan(rest, plan.used + 1), failed)
  }

  /** Commands follow the plan; `ignore` says whether errors stop the script. */
  function Planned(ignore: bool): Host<Plan> {
    Host(Follow, ignore, true, true)
  }

  // ----- the shortest way through some code -----

  function MinCost(code: Code, place: Place): nat {
    match code
    case Skip | Break => 0
    case Cmd(_) => 1
    case Seq(a, b) => MinCost(a, place) + if place == InLoop && Breaks(a) then 0 else MinCost(b, place)
    case If(_, _, thn, els) =>
      var t, e := MinCost(thn, UnderIf(place)), ElseCost(els, UnderIf(place));
      1 + if t <= e then t else e
    case Loop(_, _, _) => 1
  }

  function ElseCost(els: Option<Code>, place: Place): nat {
    match els case None => 0 case Some(e) => MinCost(e, place)
  }

  /** The plan for it, followed by `rest`. */
  function MinPlan(code: Code, place: Place, rest: Stack<bool>): Stack<bool> {
    match code
    case Skip | Break => rest
    case Cmd(_) => Push(false, rest)
    case Seq(a, b) => MinPlan(a, place, if place == InLoop && Breaks(a) then rest else MinPlan(b, place, rest))
    case If(inverted, _, thn, els) =>
      if MinCost(thn, UnderIf(place)) <= ElseCost(els, UnderIf(place)) then
        Push(inverted, MinPlan(thn, UnderIf(place), rest))
      else
        Push(!inverted, match els case None => rest case Some(e) => MinPlan(e, UnderIf(place), rest))
    case Loop(until, _, _) => Push(!until, rest)
  }

  /** No break outside inner loops stands in an `if` that was opened inside its loop. */
  predicate Straight(code: Code, place: Place) {
    match code
    case Seq(a, b) => Straight(a, place) && ((place == InLoop && Breaks(a)) || Straight(b, place))
    case Break => place != InLoopIf
    case If(_, _, thn, els) => Straight(thn, UnderIf(place)) && (els.Some? ==> Straight(els.value, UnderIf(place)))
    case _ => true
  }

  lemma {:induction false} ShapedStraight(code: Code, place: Place, ifs: nat, loops: nat)
    requires Shaped(On, code, place, ifs, loops)
    ensures Straight(code, place)
    decreases code
  {
    match code
    case Seq(a, b) =>
      ShapedStraight(a, place, ifs, loops);
      if !(place == InLoop && Breaks(a)) {
        ShapedStraight(b, place, ifs, loops);
      }
    case If(_, _, thn, els) =>
      ShapedStraight(thn, UnderIf(place), ifs - 1, loops);
      if els.Some? {
        ShapedStraight(els.value, UnderIf(place), ifs - 1, loops);
      }
    case _ =>
  }

  /** The outcome of running code down to a given remaining plan. */
  ghost predicate Ends(r: Outcome<Plan>, rest: Stack<bool>, used: nat, code: Code, place: Place, err: bool) {
    && r.Done?
    && r.st.world == Plan(rest, used)
    && r.sig == (if place == InLoop && Breaks(code) then Broke else Next)
    && (r.st.err ==> err)
  }

  lemma EmptyEnds(st: State<Plan>, place: Place)
    requires !st.err
    ensures Ends(Done(st, Next), st.world.todo, st.world.used, Skip, place, false)
  {
  }

  lemma EndsClosed(r: Outcome<Plan>, rest: Stack<bool>, used: nat, part: Code, code: Code, place: Place, err: bool)
    requires Ends(r, rest, used, part, UnderIf(place), false) && code.If?
    ensures Ends(Closed(r), rest, used, code, place, err)
  {
  }

  lemma MinSeqParts(a: Code, b: Code, place: Place, rest: Stack<bool>)
    ensures Straight(Seq(a, b), place) ==> Straight(a, place) && ((place == InLoop && Breaks(a)) || Straight(b, place))
    ensures MinPlan(Seq(a, b), place, rest) ==
            MinPlan(a, place, if place == InLoop && Breaks(a) then rest else MinPlan(b, place, rest))
    ensures MinCost(Seq(a, b), place) ==
            MinCost(a, place) + if place == InLoop && Breaks(a) then 0 else MinCost(b, place)
  {
  }

  lemma {:induction false} MinPlanEnds(ignore: bool, fuel: nat, code: Code, place: Place, rest: Stack<bool>,
                                       st: State<Plan>)
    requires fuel >= 1 && Straight(code, place) && st.world.todo == MinPlan(code, place, rest)
    ensures Ends(Intended(fuel, code, place, Planned(ignore), st), rest, st.world.used + MinCost(code, place),
                 code, place, st.err)
    decreases code, 1
  {
    match code
    case Seq(a, b) => MinSeqEnds(ignore, fuel, a, b, place, rest, st);
    case If(inverted, cond, thn, els) => MinIfEnds(ignore, fuel, inverted, cond, thn, els, place, rest, st);
    case _ =>
  }

  lemma {:induction false} MinSeqEnds(ignore: bool, fuel: nat, a: Code, b: Code, place: Place, rest: Stack<bool>,
                                      st: State<Plan>)
    requires fuel >= 1 && Straight(Seq(a, b), place) && st.world.todo == MinPlan(Seq(a, b), place, rest)
    ensures Ends(Intended(fuel, Seq(a, b), place, Planned(ignore), st), rest,
                 st.world.used + MinCost(Seq(a, b), place), Seq(a, b), place, st.err)
    decreases Seq(a, b), 0
  {
    hide Intended, Straight, MinPlan, MinCost;
    SeqMeaning(fuel, a, b, place, Planned(ignore), st);
    MinSeqParts(a, b, place, rest);
    if place == InLoop && Breaks(a) {
      MinPlanEnds(ignore, fuel, a, place, rest, st);
    } else {
      MinPlanEnds(ignore, fuel, a, place, MinPlan(b, place, rest), st);
      MinPlanEnds(ignore, fuel, b, place, rest, Intended(fuel, a, place, Planned(ignore), st).st);
    }
  }

  lemma {:induction false} MinIfEnds(ignore: bool, fuel: nat, inverted: bool, cond: Line, thn: Code, els: Option<Code>,
                                     place: Place, rest: Stack<bool>, st: State<Plan>)
    requires fuel >= 1 && Straight(If(inverted, cond, thn, els), place)
    requires st.world.todo == MinPlan(If(inverted, cond, thn, els), place, rest)
    ensures var code := If(inverted, cond, thn, els);
            Ends(Intended(fuel, code, place, Planned(ignore), st), rest, st.world.used + MinCost(code, place),
                 code, place, st.err)
    decreases If(inverted, cond, thn, els), 0
  {
    hide Intended, Ends, Closed;
    var code := If(inverted, cond, thn, els);
    var (w, failed) := Follow(cond, st.world, st.fail);
    var st1 := State(w, false, false);
    IfMeaning(fuel, inverted, cond, thn, els, place, Planned(ignore), st, st1, failed);
    var used := st.world.used + MinCost(code, place);
    if MinCost(thn, UnderIf(place)) <= ElseCost(els, UnderIf(place)) {
      MinPlanEnds(ignore, fuel, thn, UnderIf(place), rest, st1);
      EndsClosed(Intended(fuel, thn, UnderIf(place), Planned(ignore), st1), rest, used, thn, code, place, st.err);
    } else if els.Some? {
      MinPlanEnds(ignore, fuel, els.value, UnderIf(place), rest, st1);
      EndsClosed(Intended(fuel, els.value, UnderIf(place), Planned(ignore), st1), rest, used, els.value, code, place,
                 st.err);
    } else {
      EmptyEnds(st1, UnderIf(place));
      EndsClosed(Done(st1, Next), rest, used, Skip, code, place, st.err);
    }
  }

  // ----- the machine never runs fewer commands -----

  /** The least number of commands a passage may add. */
  ghost predicate CostsAtLeast(r: Passage<Plan>, used: nat) {
    !r.Stop? && (r.Past? ==> r.st.world.used >= used)
  }

  lemma {:induction false} WalkCosts(fuel: nat, mode: Mode, code: Code, place: Place, st: State<Plan>)
    ensures CostsAtLeast(Walk(fuel, mode, code, place, Planned(true), st),
                         st.world.used + if mode == On then MinCost(code, place) else 0)
    decreases fuel, code, 1
  {
    match code
    case Seq(a, b) => SeqCosts(fuel, mode, a, b, place, st);
    case If(inverted, cond, thn, els) =>
      if mode == On {
        var (w, failed) := Follow(cond, st.world, st.fail);
        if failed == inverted {
          WalkCosts(fuel, On, thn, UnderIf(place), State(w, false, false));
        } else if els.Some? {
          WalkCosts(fuel, On, els.value, UnderIf(place), State(w, false, false));
        }
      }
    case Loop(until, cond, body) =>
      if mode != IfOff {
        LoopCosts(fuel, mode, until, cond, body, place, st);
      }
    case _ =>
  }

  lemma {:induction false} SeqCosts(fuel: nat, mode: Mode, a: Code, b: Code, place: Place, st: State<Plan>)
    ensures CostsAtLeast(Walk(fuel, mode, Seq(a, b), place, Planned(true), st),
                         st.world.used + if mode == On then MinCost(Seq(a, b), place) else 0)
    decreases fuel, Seq(a, b), 0
  {
    hide Walk;
    WalkSeq(fuel, mode, a, b, place, Planned(true), st);
    WalkCosts(fuel, mode, a, place, st);
    var r := Walk(fuel, mode, a, place, Planned(true), st);
    if r.Past? {
      WalkCosts(fuel, r.mode, b, place, r.st);
      if mode == On && place == InLoop {
        WalkBreaks(fuel, a, Planned(true), st);
      }
    }
  }

  /** A loop that is not held back by an `if` runs its condition, even in a loop body that is
      being passed over. */
  lemma {:induction false} LoopCosts(fuel: nat, mode: Mode, until: bool, cond: Line, body: Code, place: Place,
                                     st: State<Plan>)
    requires mode != IfOff
    ensures CostsAtLeast(Walk(fuel, mode, Loop(until, cond, body), place, Planned(true), st), st.world.used + 1)
    decreases fuel, body
  {
    if fuel > 0 {
      var (w, failed) := Follow(cond, st.world, st.fail);
      var mode1 := if failed == until then On else LoopOff;
      var st1 := State(w, false, false);
      WalkCosts(fuel - 1, mode1, body, InLoop, st1);
      var r := Walk(fuel - 1, mode1, body, InLoop, Planned(true), st1);
      if r.Past? && r.mode == On {
        LoopCosts(fuel - 1, mode, until, cond, body, place, r.st.(err := false));
      }
    }
  }

  lemma {:induction false} DirectLoopCosts(fuel: nat, code: Code, place: Place, st: State<Plan>)
    requires DirectLoop(code)
    ensures CostsAtLeast(Walk(fuel, LoopOff, code, place, Planned(true), st), st.world.used + 1)
    decreases code
  {
    match code
    case Seq(a, b) =>
      WalkCosts(fuel, LoopOff, a, place, st);
      if DirectLoop(a) {
        DirectLoopCosts(fuel, a, place, st);
      }
      var r := Walk(fuel, LoopOff, a, place, Planned(true), st);
      if r.Past? {
        WalkCosts(fuel, LoopOff, b, place, r.st);
        if !DirectLoop(a) {
          DirectLoopCosts(fuel, b, place, r.st);
        }
      }
    case Loop(until, cond, body) => LoopCosts(fuel, LoopOff, until, cond, body, place, st);
  }

  // ----- a way to a nested loop -----

  function BadCost(code: Code, place: Place): nat
    requires Nested(code, place)
  {
    match code
    case Seq(a, b) =>
      if Nested(a, place) then BadCost(a, place) + if place == InLoop && Breaks(a) then 0 else MinCost(b, place)
      else MinCost(a, place) + BadCost(b, place)
    case If(_, _, thn, els) =>
      1 + if Nested(thn, UnderIf(place)) then BadCost(thn, UnderIf(place)) else BadCost(els.value, UnderIf(place))
    case Loop(_, _, body) =>
      if DirectLoop(body) then 1 else 1 + BadCost(body, InLoop) + if Breaks(body) then 0 else 1
  }

  /** The plan that leads to the first nested loop, ends its outer loop at once, and then takes
      the shortest way. */
  function BadPlan(code: Code, place: Place, rest: Stack<bool>): Stack<bool>
    requires Nested(code, place)
  {
    match code
    case Seq(a, b) =>
      if Nested(a, place) then
        BadPlan(a, place, if place == InLoop && Breaks(a) then rest else MinPlan(b, place, rest))
      else MinPlan(a, place, BadPlan(b, place, rest))
    case If(inverted, _, thn, els) =>
      if Nested(thn, UnderIf(place)) then Push(inverted, BadPlan(thn, UnderIf(place), rest))
      else Push(!inverted, BadPlan(els.value, UnderIf(place), rest))
    case Loop(until, _, body) =>
      if DirectLoop(body) then Push(!until, rest)
      else Push(until, BadPlan(body, InLoop, if Breaks(body) then rest else Push(!until, rest)))
  }

  /** Fuel enough to enter every loop once. */
  function FuelFor(code: Code): nat {
    match code
    case Skip | Cmd(_) | Break => 1
    case Seq(a, b) => FuelFor(a) + FuelFor(b)
    case If(_, _, thn, els) => FuelFor(thn) + (match els case None => 0 case Some(e) => FuelFor(e))
    case Loop(_, _, body) => 1 + FuelFor(body)
  }

  lemma {:induction false} FuelPositive(code: Code)
    ensures FuelFor(code) >= 1
  {
    match code
    case Seq(a, b) => FuelPositive(a);
    case If(_, _, thn, els) => FuelPositive(thn);
    case _ =>
  }

  lemma SkippedLoopEnds(fuel: nat, until: bool, cond: Line, body: Code, place: Place, rest: Stack<bool>,
                        st: State<Plan>)
    requires DirectLoop(body) && fuel >= 1 && st.world.todo == BadPlan(Loop(until, cond, body), place, rest)
    ensures var code := Loop(until, cond, body);
            Ends(Intended(fuel, code, place, Planned(true), st), rest, st.world.used + BadCost(code, place), code,
                 place, st.err)
  {
    hide Intended;
    var (w, failed) := Follow(cond, st.world, st.fail);
    LoopMeaning(fuel, until, cond, body, place, Planned(true), st, State(w, false, false), failed);
  }

  lemma {:induction false} BadPlanEnds(fuel: nat, code: Code, place: Place, ifs: nat, loops: nat, rest: Stack<bool>,
                                       st: State<Plan>)
    requires Nested(code, place) && Shaped(On, code, place, ifs, loops) && fuel >= FuelFor(code)
    requires st.world.todo == BadPlan(code, place, rest)
    ensures Ends(Intended(fuel, code, place, Planned(true), st), rest, st.world.used + BadCost(code, place), code,
                 place, st.err)
    decreases code
  {
    hide Intended, Shaped, BadPlan, BadCost;
    match code
    case Seq(a, b) => BadSeqEnds(fuel, a, b, place, ifs, loops, rest, st);
    case If(inverted, cond, thn, els) => BadIfEnds(fuel, code, place, ifs, loops, rest, st);
    case Loop(until, cond, body) =>
      if DirectLoop(body) {
        SkippedLoopEnds(fuel, until, cond, body, place, rest, st);
      } else {
        BadLoopEnds(fuel, until, cond, body, place, ifs, loops, rest, st);
      }
  }

  lemma {:induction false} BadIfEnds(fuel: nat, code: Code, place: Place, ifs: nat, loops: nat, rest: Stack<bool>,
                                     st: State<Plan>)
    requires code.If? && Nested(code, place) && Shaped(On, code, place, ifs, loops) && fuel >= FuelFor(code)
    requires st.world.todo == BadPlan(code, place, rest)
    ensures Ends(Intended(fuel, code, place, Planned(true), st), rest, st.world.used + BadCost(code, place), code,
                 place, st.err)
    decreases code, 0
  {
    hide Intended, MinCost, MinPlan, Ends, Closed;
    FuelPositive(code.thn);
    var (w, failed) := Follow(code.cond, st.world, st.fail);
    var st1 := State(w, false, false);
    IfMeaning(fuel, code.inverted, code.cond, code.thn, code.els, place, Planned(true), st, st1, failed);
    var part := if Nested(code.thn, UnderIf(place)) then code.thn else code.els.value;
    BadPlanEnds(fuel, part, UnderIf(place), ifs - 1, loops, rest, st1);
    EndsClosed(Intended(fuel, part, UnderIf(place), Planned(true), st1), rest, st.world.used + BadCost(code, place),
               part, code, place, st.err);
  }

  lemma {:induction false} BadLoopEnds(fuel: nat, until: bool, cond: Line, body: Code, place: Place, ifs: nat,
                                       loops: nat, rest: Stack<bool>, st: State<Plan>)
    requires Nested(body, InLoop) && !DirectLoop(body) && Shaped(On, Loop(until, cond, body), place, ifs, loops)
    requires fuel >= 1 + FuelFor(body) && st.world.todo == BadPlan(Loop(until, cond, body), place, rest)
    ensures var code := Loop(until, cond, body);
            Ends(Intended(fuel, code, place, Planned(true), st), rest, st.world.used + BadCost(code, place), code,
                 place, st.err)
    decreases Loop(until, cond, body), 0
  {
    hide Intended, MinCost, MinPlan;
    FuelPositive(body);
    var (w, failed) := Follow(cond, st.world, st.fail);
    var st1 := State(w, false, false);
    LoopMeaning(fuel, until, cond, body, place, Planned(true), st, st1, failed);
    var rest' := if Breaks(body) then rest else Push(!until, rest);
    BadPlanEnds(fuel - 1, body, InLoop, ifs, loops - 1, rest', st1);
    var st2 := Intended(fuel - 1, body, InLoop, Planned(true), st1).st.(err := false);
    var (w2, failed2) := Follow(cond, st2.world, st2.fail);
    LoopMeaning(fuel - 1, until, cond, body, place, Planned(true), st2, State(w2, false, false), failed2);
  }

  lemma {:induction false} BadSeqEnds(fuel: nat, a: Code, b: Code, place: Place, ifs: nat, loops: nat,
                                      rest: Stack<bool>, st: State<Plan>)
    requires var code := Seq(a, b); Nested(code, place) && Shaped(On, code, place, ifs, loops) && fuel >= FuelFor(code)
    requires st.world.todo == BadPlan(Seq(a, b), place, rest)
    ensures Ends(Intended(fuel, Seq(a, b), place, Planned(true), st), rest, st.world.used + BadCost(Seq(a, b), place),
                 Seq(a, b), place, st.err)
    decreases Seq(a, b), 0
  {
    hide Intended, MinCost, MinPlan, Straight;
    SeqMeaning(fuel, a, b, place, Planned(true), st);
    FuelPositive(a);
    FuelPositive(b);
    if Nested(a, place) {
      BadPlanEnds(fuel, a, place, ifs, loops,
                  if place == InLoop && Breaks(a) then rest else MinPlan(b, place, rest), st);
      if !(place == InLoop && Breaks(a)) {
        ShapedStraight(b, place, ifs, loops);
        MinPlanEnds(true, fuel, b, place, rest, Intended(fuel, a, place, Planned(true), st).st);
      }
    } else {
      ShapedStraight(a, place, ifs, loops);
      MinPlanEnds(true, fuel, a, place, BadPlan(b, place, rest), st);
      BadPlanEnds(fuel, b, place, ifs, loops, rest, Intended(fuel, a, place, Planned(true), st).st);
    }
  }

  /** On that plan the machine, if it ends, has run more commands. */
  lemma {:induction false} BadPlanCosts(fuel: nat, code: Code, place: Place, ifs: nat, loops: nat, rest: Stack<bool>,
                                        st: State<Plan>)
    requires Nested(code, place) && Shaped(On, code, place, ifs, loops) && (place == InLoop ==> !DirectLoop(code))
    requires st.world.todo == BadPlan(code, place, rest)
    ensures CostsAtLeast(Walk(fuel, On, code, place, Planned(true), st), st.world.used + BadCost(code, place) + 1)
    decreases code, 1
  {
    hide Shaped, BadPlan, BadCost;
    match code
    case Seq(a, b) => BadSeqCosts(fuel, a, b, place, ifs, loops, rest, st);
    case If(_, _, _, _) => BadIfCosts(fuel, code, place, ifs, loops, rest, st);
    case Loop(_, _, _) =>
      if fuel > 0 {
        BadLoopCosts(fuel, code, place, ifs, loops, rest, st);
      }
  }

  lemma {:induction false} BadIfCosts(fuel: nat, code: Code, place: Place, ifs: nat, loops: nat, rest: Stack<bool>,
                                      st: State<Plan>)
    requires code.If? && Nested(code, place) && Shaped(On, code, place, ifs, loops)
    requires st.world.todo == BadPlan(code, place, rest)
    ensures CostsAtLeast(Walk(fuel, On, code, place, Planned(true), st), st.world.used + BadCost(code, place) + 1)
    decreases code, 0
  {
    hide MinCost, MinPlan;
    var st1 := State(Follow(code.cond, st.world, st.fail).0, false, false);
    if Nested(code.thn, UnderIf(place)) {
      BadPlanCosts(fuel, code.thn, UnderIf(place), ifs - 1, loops, rest, st1);
    } else {
      BadPlanCosts(fuel, code.els.value, UnderIf(place), ifs - 1, loops, rest, st1);
    }
  }

  lemma {:induction false} BadLoopCosts(fuel: nat, code: Code, place: Place, ifs: nat, loops: nat, rest: Stack<bool>,
                                        st: State<Plan>)
    requires code.Loop? && Nested(code, place) && Shaped(On, code, place, ifs, loops) && place != InLoop && fuel > 0
    requires st.world.todo == BadPlan(code, place, rest)
    ensures CostsAtLeast(Walk(fuel, On, code, place, Planned(true), st), st.world.used + BadCost(code, place) + 1)
    decreases code, 0
  {
    hide Walk, MinCost, MinPlan;
    var Loop(until, cond, body) := code;
    WalkLoop(fuel, On, until, cond, body, place, Planned(true), st);
    var st1 := State(Follow(cond, st.world, st.fail).0, false, false);
    if DirectLoop(body) {
      DirectLoopCosts(fuel - 1, body, InLoop, st1);
    } else {
      BadPlanCosts(fuel - 1, body, InLoop, ifs, loops - 1, if Breaks(body) then rest else Push(!until, rest), st1);
      WalkBreaks(fuel - 1, body, Planned(true), st1);
      var r := Walk(fuel - 1, On, body, InLoop, Planned(true), st1);
      if r.Past? && r.mode == On {
        LoopCosts(fuel - 1, On, until, cond, body, place, r.st.(err := false));
      }
    }
  }

  lemma {:induction false} BadSeqCosts(fuel: nat, a: Code, b: Code, place: Place, ifs: nat, loops: nat,
                                       rest: Stack<bool>, st: State<Plan>)
    requires var code := Seq(a, b);
             Nested(code, place) && Shaped(On, code, place, ifs, loops) && (place == InLoop ==> !DirectLoop(code))
    requires st.world.todo == BadPlan(Seq(a, b), place, rest)
    ensures CostsAtLeast(Walk(fuel, On, Seq(a, b), place, Planned(true), st),
                         st.world.used + BadCost(Seq(a, b), place) + 1)
    decreases Seq(a, b), 0
  {
    hide Walk, Intended;
    WalkSeq(fuel, On, a, b, place, Planned(true), st);
    var r := Walk(fuel, On, a, place, Planned(true), st);
    if Nested(a, place) {
      BadPlanCosts(fuel, a, place, ifs, loops,
                   if place == InLoop && Breaks(a) then rest else MinPlan(b, place, rest), st);
      if r.Past? {
        WalkCosts(fuel, r.mode, b, place, r.st);
        if place == InLoop {
          WalkBreaks(fuel, a, Planned(true), st);
        }
      }
    } else {
      WalkAsIntended(fuel, a, place, ifs, loops, Planned(true), st);
      WalkCosts(fuel, On, a, place, st);
      ShapedStraight(a, place, ifs, loops);
      MinPlanEnds(true, fuel + 1, a, place, BadPlan(b, place, rest), st);
      if r.Past? {
        MoreFuel(fuel, a, place, Planned(true), st);
        BadPlanCosts(fuel, b, place, ifs, loops, rest, r.st);
      }
    }
  }

  // ----- exactness -----

  ghost predicate HaltsIn(n: nat, code: Code, np: Parser, host: Host<Plan>, plan: Plan, st: State<Plan>) {
    var end := Run(n, Lines(code), host, Begin(np, plan));
    end.halted && StateOf(end) == st
  }

  /** Whatever the commands do and whether or not errors stop the script: whenever it is meant to
      end, the machine halts in the state it is meant to end in. */
  ghost predicate Faithful(code: Code, np: Parser) {
    forall host: Host<Plan>, plan: Plan, fuel: nat ::
      var meaning := Intended(fuel, code, Top, host, State(plan, np.fail, true));
      host.tells && host.seeks && meaning.Done? ==> exists n: nat :: HaltsIn(n, code, np, host, plan, meaning.st)
  }

  /** Two runs of the same script that have both halted have halted alike. */
  lemma HaltOnce<W>(m: nat, n: nat, script: seq<Line>, host: Host<W>, c: Config<W>)
    requires Run(m, script, host, c).halted && Run(n, script, host, c).halted
    ensures Run(m, script, host, c) == Run(n, script, host, c)
  {
    var k, l := if m <= n then m else n, if m <= n then n else m;
    RunAdd(k, l - k, script, host, c);
    RunUnfold(l - k, script, host, Run(k, script, host, c));
  }

  lemma UnnestedIsFaithful(code: Code, np: Parser)
    requires Script(code, np) && !Nested(code, Top)
    ensures Faithful(code, np)
  {
    forall host: Host<Plan>, plan: Plan, fuel: nat
      | host.tells && host.seeks && Intended(fuel, code, Top, host, State(plan, np.fail, true)).Done?
      ensures exists n: nat ::
                HaltsIn(n, code, np, host, plan, Intended(fuel, code, Top, host, State(plan, np.fail, true)).st)
    {
      var k := MachineAsIntended(fuel, code, host, np, plan);
      assert HaltsIn(k, code, np, host, plan, Intended(fuel, code, Top, host, State(plan, np.fail, true)).st);
    }
  }

  /** A script with directly nested loops has a plan on which it is meant to end, and on which
      the machine, if it halts at all, has run more commands than it should. */
  lemma NestedGoesWrong(code: Code, np: Parser, n: nat)
    requires Script(code, np) && Nested(code, Top)
    ensures var plan := Plan(BadPlan(code, Top, Bottom), 0);
            var meaning := Intended(FuelFor(code), code, Top, Planned(true), State(plan, np.fail, true));
            var end := Run(n, Lines(code), Planned(true), Begin(np, plan));
            meaning.Done? && (end.halted ==> end.world.used > meaning.st.world.used)
  {
    var plan := Plan(BadPlan(code, Top, Bottom), 0);
    var st := State(plan, np.fail, true);
    BadPlanEnds(FuelFor(code), code, Top, np.depth - 1, np.depth - 1, Bottom, st);
    BadPlanCosts(n, code, Top, np.depth - 1, np.depth - 1, Bottom, st);
    var k := MachineWalks(n, code, Planned(true), np, plan);
    if Run(n, Lines(code), Planned(true), Begin(np, plan)).halted {
      if Run(k, Lines(code), Planned(true), Begin(np, plan)).halted {
        HaltOnce(k, n, Lines(code), Planned(true), Begin(np, plan));
      } else {
        StillRunning(n, k, Lines(code), Planned(true), Begin(np, plan));
      }
    }
  }

  /** The machine runs a script as documented, whatever its commands do, if and only if no
      loop that can be reached has another loop directly in its body. */
  lemma NestingExact(code: Code, np: Parser)
    requires Script(code, np)
    ensures Faithful(code, np) <==> !Nested(code, Top)
  {
    if Nested(code, Top) {
      var plan := Plan(BadPlan(code, Top, Bottom), 0);
      var meaning := Intended(FuelFor(code), code, Top, Planned(true), State(plan, np.fail, true));
      NestedGoesWrong(code, np, 0);
      if Faithful(code, np) {
        var n: nat :| HaltsIn(n, code, np, Planned(true), plan, meaning.st);
        NestedGoesWrong(code, np, n);
        assert false;
      }
    } else {
      UnnestedIsFaithful(code, np);
    }
  }
}
