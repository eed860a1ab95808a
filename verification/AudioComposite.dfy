/** A composite audio device: one operation on it is carried out on several lower devices, some of
    which may not offer it or may decline it. */
module AudioComposite {
  import opened Wrappers

  datatype Action = Shutdown | Start | Stop | Pause | Resume | Reserve | Release | Alloc | Free

  const ENOTTY: int := 25

  /** What a device does when asked: nothing if it does not offer the operation, and otherwise a new
      state and a result. */
  type Driver<!D> = (D, Action) -> Option<(D, int)>

  /** Not offering an operation comes to the same as declining it, but for the call. */
  function Asked<D>(call: Driver<D>, d: D, a: Action): (D, int) {
    match call(d, a)
    case None => (d, -ENOTTY)
    case Some(r) => r
  }

  function After<D>(call: Driver<D>, d: D, a: Action): D {
    Asked(call, d, a).0
  }

  function Result<D>(call: Driver<D>, d: D, a: Action): int {
    Asked(call, d, a).1
  }

  predicate Fails(result: int) {
    result < 0 && result != -ENOTTY
  }

  function Call<D>(call: Driver<D>, d: D, a: Action, i: nat): seq<(nat, Action)> {
    if call(d, a).Some? then [(i, a)] else []
  }

  /** The calls made on the first `n` devices, lowest first. */
  function Upward<D>(call: Driver<D>, ds: seq<D>, a: Action, n: nat): seq<(nat, Action)>
    requires n <= |ds|
  {
    if n == 0 then [] else Upward(call, ds, a, n - 1) + Call(call, ds[n - 1], a, n - 1)
  }

  lemma NoneUpward<D>(call: Driver<D>, ds: seq<D>, a: Action)
    ensures Upward(call, ds, a, 0) == []
  {
  }

  /** The calls made on the devices from `i` to `n`, highest first. */
  function Downward<D>(call: Driver<D>, ds: seq<D>, a: Action, i: nat, n: nat): seq<(nat, Action)>
    requires i <= n <= |ds|
    decreases n - i
  {
    if i == n then [] else Downward(call, ds, a, i + 1, n) + Call(call, ds[i], a, i)
  }

  /** The calls made on the way up are one to each device that offers the operation, in order. */
  lemma {:induction false} UpwardExactly<D>(call: Driver<D>, ds: seq<D>, a: Action, n: nat)
    requires n <= |ds|
    ensures forall i: nat, b :: (i, b) in Upward(call, ds, a, n) <==> b == a && i < n && call(ds[i], a).Some?
    ensures forall x, y :: 0 <= x < y < |Upward(call, ds, a, n)| ==>
              Upward(call, ds, a, n)[x].0 < Upward(call, ds, a, n)[y].0
  {
    if n > 0 {
      UpwardExactly(call, ds, a, n - 1);
      var before, last := Upward(call, ds, a, n - 1), Call(call, ds[n - 1], a, n - 1);
      forall x | 0 <= x < |before|
        ensures before[x].0 < n - 1
      {
        assert (before[x].0, before[x].1) in before;
      }
    }
  }

  /** On the way down the order is the reverse. */
  lemma {:induction false} DownwardExactly<D>(call: Driver<D>, ds: seq<D>, a: Action, i: nat, n: nat)
    requires i <= n <= |ds|
    ensures forall k: nat, b :: (k, b) in Downward(call, ds, a, i, n) <==> b == a && i <= k < n && call(ds[k], a).Some?
    ensures forall x, y :: 0 <= x < y < |Downward(call, ds, a, i, n)| ==>
              Downward(call, ds, a, i, n)[x].0 > Downward(call, ds, a, i, n)[y].0
    decreases n - i
  {
    if i < n {
      DownwardExactly(call, ds, a, i + 1, n);
      var before := Downward(call, ds, a, i + 1, n);
      forall x | 0 <= x < |before|
        ensures before[x].0 > i
      {
        assert (before[x].0, before[x].1) in before;
      }
    }
  }

  /** The answer when none of the first `n` devices fails: that of the highest that did not decline,
      or `none`. */
  ghost predicate HighestAnswer<D>(call: Driver<D>, ds: seq<D>, a: Action, n: nat, none: int, ret: int)
    requires n <= |ds|
  {
    || ((forall j :: 0 <= j < n ==> Result(call, ds[j], a) == -ENOTTY) && ret == none)
    || exists j :: 0 <= j < n && Result(call, ds[j], a) != -ENOTTY && ret == Result(call, ds[j], a)
                   && forall k :: j < k < n ==> Result(call, ds[k], a) == -ENOTTY
  }

  lemma HighestNone<D>(call: Driver<D>, ds: seq<D>, a: Action, none: int)
    ensures HighestAnswer(call, ds, a, 0, none, none)
  {
  }

  lemma HighestNext<D>(call: Driver<D>, ds: seq<D>, a: Action, n: nat, none: int, ret: int)
    requires n < |ds| && HighestAnswer(call, ds, a, n, none, ret)
    ensures HighestAnswer(call, ds, a, n + 1, none,
                          if Result(call, ds[n], a) == -ENOTTY then ret else Result(call, ds[n], a))
  {
  }

  /** Some device took the request. */
  ghost predicate Handled<D>(call: Driver<D>, ds: seq<D>, a: Action) {
    exists j :: 0 <= j < |ds| && Result(call, ds[j], a) != -ENOTTY
  }

  /** The lowest real failure among the devices from `i` on. */
  function LowestFailure<D>(call: Driver<D>, ds: seq<D>, a: Action, i: nat): Option<int>
    requires i <= |ds|
    decreases |ds| - i
  {
    if i == |ds| then None
    else if Fails(Result(call, ds[i], a)) then Some(Result(call, ds[i], a))
    else LowestFailure(call, ds, a, i + 1)
  }

  /** The result of the lowest device from `i` on that handled an operation. */
  function LowestHandled<D>(call: Driver<D>, ds: seq<D>, a: Action, i: nat, none: int): int
    requires i <= |ds|
    decreases |ds| - i
  {
    if i == |ds| then none
    else if Result(call, ds[i], a) != -ENOTTY then Result(call, ds[i], a)
    else LowestHandled(call, ds, a, i + 1, none)
  }

  function Verdict<D>(call: Driver<D>, ds: seq<D>, a: Action, i: nat, none: int): int
    requires i <= |ds|
  {
    match LowestFailure(call, ds, a, i)
    case Some(r) => r
    case None => LowestHandled(call, ds, a, i, none)
  }

  lemma VerdictNone<D>(call: Driver<D>, ds: seq<D>, a: Action, none: int)
    ensures Verdict(call, ds, a, |ds|, none) == none
  {
  }

  lemma {:induction false} VerdictSign<D>(call: Driver<D>, ds: seq<D>, a: Action, i: nat, none: int)
    requires i <= |ds| && !Fails(none)
    ensures LowestFailure(call, ds, a, i).Some? <==> Fails(Verdict(call, ds, a, i, none))
    decreases |ds| - i
  {
    if i < |ds| {
      VerdictSign(call, ds, a, i + 1, none);
    }
  }

  /** The answer when all devices are asked whatever they say: that of the lowest device that failed,
      or else of the lowest that did not decline, or `none`. */
  ghost predicate LowestAnswer<D>(call: Driver<D>, ds: seq<D>, a: Action, none: int, ret: int) {
    if exists j :: 0 <= j < |ds| && Fails(Result(call, ds[j], a)) then
      exists j :: 0 <= j < |ds| && Fails(Result(call, ds[j], a)) && ret == Result(call, ds[j], a)
                  && forall k :: 0 <= k < j ==> !Fails(Result(call, ds[k], a))
    else if Handled(call, ds, a) then
      exists j :: 0 <= j < |ds| && Result(call, ds[j], a) != -ENOTTY && ret == Result(call, ds[j], a)
                  && forall k :: 0 <= k < j ==> Result(call, ds[k], a) == -ENOTTY
    else ret == none
  }

  lemma {:induction false} FailureIsLowest<D>(call: Driver<D>, ds: seq<D>, a: Action, i: nat)
    requires i <= |ds|
    ensures match LowestFailure(call, ds, a, i)
            case None => forall j :: i <= j < |ds| ==> !Fails(Result(call, ds[j], a))
            case Some(r) =>
              exists j :: i <= j < |ds| && Fails(Result(call, ds[j], a)) && r == Result(call, ds[j], a)
                          && forall k :: i <= k < j ==> !Fails(Result(call, ds[k], a))
    decreases |ds| - i
  {
    hide Result, Fails;
    if i < |ds| {
      FailureIsLowest(call, ds, a, i + 1);
    }
  }

  lemma {:induction false} HandledIsLowest<D>(call: Driver<D>, ds: seq<D>, a: Action, i: nat, none: int)
    requires i <= |ds|
    ensures || ((forall j :: i <= j < |ds| ==> Result(call, ds[j], a) == -ENOTTY)
                && LowestHandled(call, ds, a, i, none) == none)
            || exists j :: i <= j < |ds| && Result(call, ds[j], a) != -ENOTTY
                           && LowestHandled(call, ds, a, i, none) == Result(call, ds[j], a)
                           && forall k :: i <= k < j ==> Result(call, ds[k], a) == -ENOTTY
    decreases |ds| - i
  {
    hide Result;
    if i < |ds| {
      HandledIsLowest(call, ds, a, i + 1, none);
    }
  }

  lemma VerdictIsLowest<D>(call: Driver<D>, ds: seq<D>, a: Action, none: int)
    ensures LowestAnswer(call, ds, a, none, Verdict(call, ds, a, 0, none))
  {
    hide Result, Fails, LowestFailure, LowestHandled;
    FailureIsLowest(call, ds, a, 0);
    HandledIsLowest(call, ds, a, 0, none);
  }

  /** The lowest failure, or else the lowest handler, is what remains when results are merged from
      the highest device to the lowest. */
  lemma VerdictMerge<D>(call: Driver<D>, ds: seq<D>, a: Action, i: nat, none: int)
    requires i < |ds| && !Fails(none)
    ensures var ret, tmp := Verdict(call, ds, a, i + 1, none), Result(call, ds[i], a);
            Verdict(call, ds, a, i, none) ==
            if tmp != -ENOTTY && (tmp < 0 || ret == -ENOTTY || ret >= 0) then tmp else ret
  {
    VerdictSign(call, ds, a, i + 1, none);
  }

  /** `f` is the first device that fails, or the number of devices. */
  ghost predicate FirstFailure<D>(call: Driver<D>, ds: seq<D>, a: Action, f: nat) {
    && f <= |ds|
    && (forall j :: 0 <= j < f ==> !Fails(Result(call, ds[j], a)))
    && (f < |ds| ==> Fails(Result(call, ds[f], a)))
  }

  /** What a device comes to, given the device that failed. */
  function Settled<D>(call: Driver<D>, d: D, up: Action, down: Action, j: int, f: int, n: int): D {
    if j > f then d
    else if j == f || f == n then After(call, d, up)
    else After(call, After(call, d, up), down)
  }

  ghost predicate SettledAll<D>(call: Driver<D>, ds: seq<D>, ds': seq<D>, up: Action, down: Action, f: nat) {
    |ds'| == |ds| && forall j :: 0 <= j < |ds| ==> ds'[j] == Settled(call, ds[j], up, down, j, f, |ds|)
  }

  /** The first device that does not decline. */
  ghost predicate Taker<D>(call: Driver<D>, ds: seq<D>, a: Action, owner: nat) {
    && owner <= |ds|
    && (forall j :: 0 <= j < owner ==> Result(call, ds[j], a) == -ENOTTY)
    && (owner < |ds| ==> Result(call, ds[owner], a) != -ENOTTY)
  }

  function Raised<D>(call: Driver<D>, ds: seq<D>, a: Action): (raised: seq<D>)
    ensures |raised| == |ds|
  {
    seq(|ds|, j requires 0 <= j < |ds| => After(call, ds[j], a))
  }

  /** The calls that a raise makes, given the device that failed. */
  function Sequence<D>(call: Driver<D>, ds: seq<D>, up: Action, down: Action, f: nat): seq<(nat, Action)>
    requires f <= |ds|
  {
    if f == |ds| then Upward(call, ds, up, f)
    else Upward(call, ds, up, f + 1) + Downward(call, Raised(call, ds, up), down, 0, f)
  }

  lemma {:induction false} SameDownward<D>(call: Driver<D>, ds: seq<D>, ds': seq<D>, a: Action, i: nat, n: nat)
    requires i <= n <= |ds| == |ds'| && forall j :: i <= j < n ==> ds[j] == ds'[j]
    ensures Downward(call, ds, a, i, n) == Downward(call, ds', a, i, n)
    decreases n - i
  {
    if i < n {
      SameDownward(call, ds, ds', a, i + 1, n);
    }
  }

  lemma NoneFailed<D>(call: Driver<D>, ds: seq<D>, ds': seq<D>, up: Action, down: Action)
    requires |ds'| == |ds| && forall j :: 0 <= j < |ds| ==> ds'[j] == After(call, ds[j], up)
    ensures SettledAll(call, ds, ds', up, down, |ds|)
  {
  }

  class Composite<D> {
    const lower: array<D>
    const call: Driver<D>
    // The operations asked of the devices, in order.
    var calls: seq<(nat, Action)>

    constructor (lower: array<D>, call: Driver<D>)
      ensures this.lower == lower && this.call == call && calls == []
    {
      this.lower, this.call, calls := lower, call, [];
    }

    /** Asks one device. */
    method Ask(i: nat, a: Action) returns (ret: int)
      requires i < lower.Length
      modifies this`calls, lower
      ensures lower[..] == old(lower[..])[i := After(call, old(lower[i]), a)]
      ensures ret == Result(call, old(lower[i]), a) && calls == old(calls) + Call(call, old(lower[i]), a, i)
      ensures match call(old(lower[i]), a)
              case None => unchanged(lower) && unchanged(`calls) && ret == -ENOTTY
              case Some((d, r)) => lower[i] == d && ret == r && calls == old(calls) + [(i, a)]
    {
      var r := call(lower[i], a);
      if r.None? {
        return -ENOTTY;
      }
      calls := calls + [(i, a)];
      lower[i], ret := r.value.0, r.value.1;
    }

    /** Asks the devices from `n` down to the first, whatever they answer. */
    method Wind(a: Action, n: nat, none: int) returns (ret: int)
      requires n <= lower.Length && !Fails(none)
      modifies this`calls, lower
      ensures forall j :: 0 <= j < n ==> lower[j] == After(call, old(lower[j]), a)
      ensures forall j :: n <= j < lower.Length ==> lower[j] == old(lower[j])
      ensures calls == old(calls) + Downward(call, old(lower[..]), a, 0, n)
      ensures ret == Verdict(call, old(lower[..n]), a, 0, none)
    {
      hide Verdict, After, Result, Call;
      ghost var ds := lower[..];
      ret := none;
      VerdictNone(call, ds[..n], a, none);
      var i := n;
      while i > 0
        invariant 0 <= i <= n
        invariant forall j :: i <= j < n ==> lower[j] == After(call, ds[j], a)
        invariant forall j :: 0 <= j < i || n <= j < lower.Length ==> lower[j] == ds[j]
        invariant calls == old(calls) + Downward(call, ds, a, i, n)
        invariant ret == Verdict(call, ds[..n], a, i, none)
      {
        i := i - 1;
        VerdictMerge(call, ds[..n], a, i, none);
        var tmp := Ask(i, a);
        if tmp != -ENOTTY {
          if tmp < 0 || ret == -ENOTTY || ret >= 0 {
            ret := tmp;
          }
        }
      }
    }

    /** The first `n` devices have been asked. */
    ghost predicate Asking(ds: seq<D>, a: Action, n: nat)
      reads lower
    {
      && |ds| == lower.Length
      && forall j :: 0 <= j < |ds| ==> lower[j] == if j < n then After(call, ds[j], a) else ds[j]
    }

    /** Undoes what the devices before the one that failed have done, in reverse order. */
    method RollBack(up: Action, down: Action, f: nat, ghost ds: seq<D>)
      requires f < lower.Length && Asking(ds, up, f + 1)
      modifies this`calls, lower
      ensures SettledAll(call, ds, lower[..], up, down, f)
      ensures calls == old(calls) + Downward(call, Raised(call, ds, up), down, 0, f)
    {
      var _ := Wind(down, f, 0);
      SameDownward(call, old(lower[..]), Raised(call, ds, up), down, 0, f);
    }

    /** Asks the next device. */
    method AskNext(i: nat, a: Action, ghost ds: seq<D>, ghost before: seq<(nat, Action)>) returns (ret: int)
      requires i < lower.Length && Asking(ds, a, i) && calls == before + Upward(call, ds, a, i)
      modifies this`calls, lower
      ensures Asking(ds, a, i + 1) && calls == before + Upward(call, ds, a, i + 1)
      ensures ret == Result(call, ds[i], a)
    {
      Regroup(before, Upward(call, ds, a, i), Call(call, ds[i], a, i));
      ret := Ask(i, a);
    }

    /** Asks the devices in turn, up to the first that fails. */
    method Climb(up: Action, none: int) returns (ret: int, f: nat)
      modifies this`calls, lower
      ensures FirstFailure(call, old(lower[..]), up, f)
      ensures Asking(old(lower[..]), up, if f < lower.Length then f + 1 else f)
      ensures if f < lower.Length then ret == Result(call, old(lower[f]), up)
              else HighestAnswer(call, old(lower[..]), up, f, none, ret)
      ensures calls == old(calls) + Upward(call, old(lower[..]), up, if f < lower.Length then f + 1 else f)
    {
      hide Upward, Result, After, HighestAnswer;
      ghost var ds, before := lower[..], calls;
      ret, f := none, 0;
      HighestNone(call, ds, up, none);
      NoneUpward(call, ds, up);
      while f < lower.Length
        invariant 0 <= f <= lower.Length && Asking(ds, up, f)
        invariant forall j :: 0 <= j < f ==> !Fails(Result(call, ds[j], up))
        invariant HighestAnswer(call, ds, up, f, none, ret)
        invariant calls == before + Upward(call, ds, up, f)
      {
        HighestNext(call, ds, up, f, none, ret);
        var tmp := AskNext(f, up, ds, before);
        if tmp != -ENOTTY {
          ret := tmp;
          if ret < 0 {
            return;
          }
        }
        f := f + 1;
      }
    }

    /** What asking all the devices, with a way back, comes to. */
    ghost predicate AllAsked(ds: seq<D>, before: seq<(nat, Action)>, up: Action, down: Action, none: int, ret: int,
                             f: nat)
      reads this, lower
    {
      && FirstFailure(call, ds, up, f)
      && (if f < |ds| then ret == Result(call, ds[f], up) else HighestAnswer(call, ds, up, f, none, ret))
      && SettledAll(call, ds, lower[..], up, down, f)
      && calls == before + Sequence(call, ds, up, down, f)
    }

    /** What asking all the devices, highest first and whatever they answer, comes to. */
    ghost predicate AllWound(ds: seq<D>, before: seq<(nat, Action)>, a: Action, none: int, ret: int)
      reads this, lower
    {
      && |ds| == lower.Length
      && (forall j :: 0 <= j < |ds| ==> lower[j] == After(call, ds[j], a))
      && calls == before + Downward(call, ds, a, 0, |ds|)
      && LowestAnswer(call, ds, a, none, ret)
    }

    /** Asks the devices in turn; at the first failure, undoes what was done. */
    method Raise(up: Action, down: Action, none: int) returns (ret: int, ghost f: nat)
      modifies this`calls, lower
      ensures AllAsked(old(lower[..]), old(calls), up, down, none, ret, f)
    {
      hide Upward, Downward, HighestAnswer, Result, Raised, SettledAll, After;
      ghost var ds := lower[..];
      var i;
      ret, i := Climb(up, none);
      f := i;
      if i < lower.Length {
        RollBack(up, down, i, ds);
        Regroup(old(calls), Upward(call, ds, up, i + 1), Downward(call, Raised(call, ds, up), down, 0, i));
      } else {
        NoneFailed(call, ds, lower[..], up, down);
      }
    }

    method DoStart() returns (ret: int, ghost f: nat)
      modifies this`calls, lower
      ensures AllAsked(old(lower[..]), old(calls), Start, Stop, -ENOTTY, ret, f)
      ensures ret >= 0 <==> f == lower.Length && Handled(call, old(lower[..]), Start)
    {
      ret, f := Raise(Start, Stop, -ENOTTY);
    }

    method DoResume() returns (ret: int, ghost f: nat)
      modifies this`calls, lower
      ensures AllAsked(old(lower[..]), old(calls), Resume, Pause, -ENOTTY, ret, f)
      ensures ret >= 0 <==> f == lower.Length && Handled(call, old(lower[..]), Resume)
    {
      ret, f := Raise(Resume, Pause, -ENOTTY);
    }

    method DoReserve() returns (ret: int, ghost f: nat)
      modifies this`calls, lower
      ensures AllAsked(old(lower[..]), old(calls), Reserve, Release, 0, ret, f)
      ensures ret >= 0 <==> f == lower.Length
    {
      ret, f := Raise(Reserve, Release, 0);
    }

    method WindAll(a: Action, none: int) returns (ret: int)
      requires !Fails(none)
      modifies this`calls, lower
      ensures AllWound(old(lower[..]), old(calls), a, none, ret)
    {
      assert lower[..lower.Length] == lower[..];
      VerdictIsLowest(call, lower[..], a, none);
      ret := Wind(a, lower.Length, none);
    }

    method DoShutdown() returns (ret: int)
      modifies this`calls, lower
      ensures AllWound(old(lower[..]), old(calls), Shutdown, -ENOTTY, ret)
    {
      ret := WindAll(Shutdown, -ENOTTY);
    }

    method DoStop() returns (ret: int)
      modifies this`calls, lower
      ensures AllWound(old(lower[..]), old(calls), Stop, -ENOTTY, ret)
    {
      ret := WindAll(Stop, -ENOTTY);
    }

    method DoPause() returns (ret: int)
      modifies this`calls, lower
      ensures AllWound(old(lower[..]), old(calls), Pause, -ENOTTY, ret)
    {
      ret := WindAll(Pause, -ENOTTY);
    }

    method DoRelease() returns (ret: int)
      modifies this`calls, lower
      ensures AllWound(old(lower[..]), old(calls), Release, 0, ret)
    {
      ret := WindAll(Release, 0);
    }

    /** Asks the devices in turn until one takes the request; `owner` is that device, or the number of
        devices when the fallback does. */
    method Offer(a: Action) returns (ret: int, owner: nat)
      modifies this`calls, lower
      ensures Taker(call, old(lower[..]), a, owner) && Asking(old(lower[..]), a, owner + 1)
      ensures ret == if owner < lower.Length then Result(call, old(lower[owner]), a) else -ENOTTY
      ensures var n := if owner < lower.Length then owner + 1 else owner;
              calls == old(calls) + Upward(call, old(lower[..]), a, n)
    {
      ghost var ds, before := lower[..], calls;
      ret, owner := -ENOTTY, 0;
      while owner < lower.Length
        invariant 0 <= owner <= lower.Length && Asking(ds, a, owner) && ret == -ENOTTY
        invariant forall j :: 0 <= j < owner ==> Result(call, ds[j], a) == -ENOTTY
        invariant calls == before + Upward(call, ds, a, owner)
      {
        ret := AskNext(owner, a, ds, before);
        if ret != -ENOTTY {
          return;
        }
        owner := owner + 1;
      }
    }

    /** Allocates a buffer; `fallback` is what the fallback allocator would answer. */
    method AllocBuffer(fallback: int) returns (ret: int, owner: nat)
      modifies this`calls, lower
      ensures Taker(call, old(lower[..]), Alloc, owner) && Asking(old(lower[..]), Alloc, owner + 1)
      ensures ret == if owner < lower.Length then Result(call, old(lower[owner]), Alloc) else fallback
      ensures var n := if owner < lower.Length then owner + 1 else owner;
              calls == old(calls) + Upward(call, old(lower[..]), Alloc, n)
    {
      ret, owner := Offer(Alloc);
      if ret == -ENOTTY {
        ret := fallback;
      }
    }

    /** Frees a buffer; `size` is the size of a buffer descriptor. */
    method FreeBuffer(size: nat) returns (ret: int, owner: nat)
      modifies this`calls, lower
      ensures Taker(call, old(lower[..]), Free, owner) && Asking(old(lower[..]), Free, owner + 1)
      ensures ret == if owner < lower.Length then Result(call, old(lower[owner]), Free) else size
      ensures var n := if owner < lower.Length then owner + 1 else owner;
              calls == old(calls) + Upward(call, old(lower[..]), Free, n)
    {
      ret, owner := Offer(Free);
      if ret == -ENOTTY {
        ret := size;
      }
    }
  }

  // ----- all or nothing -----

  /** A device becomes active when the operation succeeds and inactive when its inverse does; a
      failure or a refusal leaves it as it was. */
  ghost predicate Switches<D(!new)>(call: Driver<D>, active: D -> bool, up: Action, down: Action) {
    && (forall d :: active(After(call, d, up)) == (Result(call, d, up) >= 0 || active(d)))
    && (forall d :: active(After(call, d, down)) == (Result(call, d, down) < 0 && active(d)))
  }

  /** When nothing fails, the active devices are those that handled the operation. */
  lemma AllActive<D(!new)>(call: Driver<D>, active: D -> bool, ds: seq<D>, ds': seq<D>, up: Action, down: Action)
    requires Switches(call, active, up, down) && SettledAll(call, ds, ds', up, down, |ds|)
    requires forall j :: 0 <= j < |ds| ==> !active(ds[j])
    ensures forall j :: 0 <= j < |ds| ==> (active(ds'[j]) <==> Result(call, ds[j], up) >= 0)
  {
  }

  /** When a device fails, no device is left active exactly when every device that had handled the
      operation also carries out its inverse. */
  lemma NoneActive<D(!new)>(call: Driver<D>, active: D -> bool, ds: seq<D>, ds': seq<D>, up: Action, down: Action,
                            f: nat)
    requires Switches(call, active, up, down) && SettledAll(call, ds, ds', up, down, f)
    requires FirstFailure(call, ds, up, f) && f < |ds|
    requires forall j :: 0 <= j < |ds| ==> !active(ds[j])
    ensures (forall j :: 0 <= j < |ds| ==> !active(ds'[j])) <==>
            (forall j :: 0 <= j < f && Result(call, ds[j], up) >= 0 ==> Result(call, After(call, ds[j], up), down) >= 0)
  {
    forall j | 0 <= j < |ds|
      ensures active(ds'[j]) <==>
              j < f && Result(call, ds[j], up) >= 0 && Result(call, After(call, ds[j], up), down) < 0
    {
      assert ds'[j] == Settled(call, ds[j], up, down, j, f, |ds|);
    }
  }

  // ----- buffers -----

  /** A device that allocates also frees, and keeps doing so. */
  ghost predicate Steady<D(!new)>(call: Driver<D>, takes: D -> bool) {
    forall d, a :: a == Alloc || a == Free ==>
      (Result(call, d, a) != -ENOTTY <==> takes(d)) && takes(After(call, d, a)) == takes(d)
  }

  /** A run of allocations and frees: the devices before and after each, and who took it. */
  datatype Event<D> = Event(action: Action, owner: nat, before: seq<D>, after: seq<D>)

  ghost predicate IsEvent<D>(call: Driver<D>, e: Event<D>) {
    && (e.action == Alloc || e.action == Free) && Taker(call, e.before, e.action, e.owner)
    && |e.after| == |e.before|
    && forall j :: 0 <= j < |e.before| ==>
         e.after[j] == if j <= e.owner then After(call, e.before[j], e.action) else e.before[j]
  }

  ghost predicate IsRun<D>(call: Driver<D>, events: seq<Event<D>>) {
    && (forall i :: 0 <= i < |events| ==> IsEvent(call, events[i]))
    && (forall i :: 0 < i < |events| ==> events[i].before == events[i - 1].after)
  }

  lemma {:induction false} SameTakers<D(!new)>(call: Driver<D>, takes: D -> bool, events: seq<Event<D>>, i: nat)
    requires Steady(call, takes) && IsRun(call, events) && i < |events|
    ensures |events[i].before| == |events[0].before|
    ensures forall j :: 0 <= j < |events[0].before| ==> takes(events[i].before[j]) == takes(events[0].before[j])
  {
    if i > 0 {
      SameTakers(call, takes, events, i - 1);
      assert IsEvent(call, events[i - 1]);
      assert events[i].before == events[i - 1].after;
    }
  }

  lemma TakerIs<D(!new)>(call: Driver<D>, takes: D -> bool, e: Event<D>)
    requires Steady(call, takes) && IsEvent(call, e)
    ensures e.owner <= |e.before| && (e.owner < |e.before| ==> takes(e.before[e.owner]))
    ensures forall j :: 0 <= j < e.owner ==> !takes(e.before[j])
  {
  }

  /** Over any run, the requests are all taken by one device, or all by the fallback: so whoever
      allocated a buffer is the one who frees it. */
  lemma SameOwner<D(!new)>(call: Driver<D>, takes: D -> bool, events: seq<Event<D>>, i: nat, k: nat)
    requires Steady(call, takes) && IsRun(call, events) && i < |events| && k < |events|
    ensures events[i].owner == events[k].owner
  {
    SameTakers(call, takes, events, i);
    SameTakers(call, takes, events, k);
    TakerIs(call, takes, events[i]);
    TakerIs(call, takes, events[k]);
    var a, b := events[i].owner, events[k].owner;
    var ds := events[0].before;
    assert a < |ds| ==> takes(ds[a]);
    assert b < |ds| ==> takes(ds[b]);
  }
}
