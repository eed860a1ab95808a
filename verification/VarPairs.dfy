/** The variables of a shell session as an ordered list of pairs, the buffer they are packed
    into, and what any run of operations leaves in the list. */
module VarPairs {
  import opened Wrappers

  datatype Pair = Pair(name: string, value: string)

  ghost predicate IsName(s: string) {
    '=' !in s && NUL !in s
  }

  ghost predicate IsPair(p: Pair) {
    IsName(p.name) && NUL !in p.value
  }

  ghost predicate Distinct(pairs: seq<Pair>) {
    forall i, j :: 0 <= i < j < |pairs| ==> pairs[i].name != pairs[j].name
  }

  ghost predicate WellFormed(pairs: seq<Pair>) {
    (forall i :: 0 <= i < |pairs| ==> IsPair(pairs[i])) && Distinct(pairs)
  }

  function Text(p: Pair): string {
    p.name + "=" + p.value
  }

  function Entry(p: Pair): string {
    Text(p) + [NUL]
  }

  /** The pairs one after the other, each closed by a NUL. */
  function Packed(pairs: seq<Pair>): string {
    if pairs == [] then "" else Entry(pairs[0]) + Packed(pairs[1..])
  }

  lemma {:induction false} PackedAppend(a: seq<Pair>, b: seq<Pair>)
    ensures Packed(a + b) == Packed(a) + Packed(b)
    decreases |a|
  {
    if a == [] {
      assert a + b == b;
    } else {
      assert (a + b)[1..] == a[1..] + b;
      PackedAppend(a[1..], b);
    }
  }

  lemma PackedSplit(a: seq<Pair>, p: Pair, b: seq<Pair>)
    ensures Packed(a + [p]) == Packed(a) + Entry(p)
    ensures Packed(a + [p] + b) == Packed(a + [p]) + Packed(b)
  {
    PackedAppend(a, [p]);
    PackedAppend(a + [p], b);
    assert Packed([p]) == Entry(p) by { assert [p][1..] == [] && Entry(p) + "" == Entry(p); }
  }

  // ----- the operations on the list -----

  function Lookup(pairs: seq<Pair>, name: string): Option<string> {
    if pairs == [] then None
    else if pairs[0].name == name then Some(pairs[0].value)
    else Lookup(pairs[1..], name)
  }

  /** The list without the variable of that name. */
  function Without(pairs: seq<Pair>, name: string): seq<Pair> {
    if pairs == [] then []
    else if pairs[0].name == name then Without(pairs[1..], name)
    else [pairs[0]] + Without(pairs[1..], name)
  }

  /** Setting fails, when memory runs out, after the old value is gone. */
  datatype Op = Set(name: string, value: string, memory: bool) | Unset(name: string)

  function Apply(pairs: seq<Pair>, op: Op): seq<Pair> {
    var rest := Without(pairs, op.name);
    if op.Set? && op.memory then rest + [Pair(op.name, op.value)] else rest
  }

  function Run(pairs: seq<Pair>, ops: seq<Op>): seq<Pair>
    decreases |ops|
  {
    if ops == [] then pairs else Run(Apply(pairs, ops[0]), ops[1..])
  }

  lemma {:induction false} WithoutNames(pairs: seq<Pair>, name: string)
    ensures forall p :: p in Without(pairs, name) <==> p in pairs && p.name != name
  {
    if pairs != [] {
      WithoutNames(pairs[1..], name);
      assert pairs == [pairs[0]] + pairs[1..];
    }
  }

  lemma {:induction false} WithoutDistinct(pairs: seq<Pair>, name: string)
    requires Distinct(pairs)
    ensures Distinct(Without(pairs, name))
  {
    if pairs != [] {
      var rest := pairs[1..];
      WithoutDistinct(rest, name);
      WithoutNames(rest, name);
      forall p | p in Without(rest, name)
        ensures p.name != pairs[0].name
      {
        var i :| 0 <= i < |rest| && rest[i] == p;
        assert pairs[i + 1] == p;
      }
    }
  }

  lemma {:induction false} WithoutSame(pairs: seq<Pair>, name: string)
    requires forall p :: p in pairs ==> p.name != name
    ensures Without(pairs, name) == pairs
  {
    if pairs != [] {
      assert pairs[0] in pairs;
      WithoutSame(pairs[1..], name);
    }
  }

  lemma {:induction false} WithoutAppend(a: seq<Pair>, b: seq<Pair>, name: string)
    ensures Without(a + b, name) == Without(a, name) + Without(b, name)
    decreases |a|
  {
    if a == [] {
      assert a + b == b;
    } else {
      assert (a + b)[1..] == a[1..] + b;
      WithoutAppend(a[1..], b, name);
    }
  }

  lemma WithoutOne(p: Pair)
    ensures Without([p], p.name) == []
  {
    assert [p][1..] == [];
  }

  /** Removing the one pair that has the name leaves the others as they were. */
  lemma WithoutAt(all: seq<Pair>, before: seq<Pair>, p: Pair, after: seq<Pair>)
    requires all == before + [p] + after && Distinct(all)
    ensures Without(all, p.name) == before + after
  {
    hide Without;
    forall q | q in before || q in after
      ensures q.name != p.name
    {
      assert all[|before|] == p;
      if q in before {
        var i :| 0 <= i < |before| && before[i] == q;
        assert all[i] == q;
      } else {
        var i :| 0 <= i < |after| && after[i] == q;
        assert all[|before| + 1 + i] == q;
      }
    }
    WithoutAppend(before + [p], after, p.name);
    WithoutAppend(before, [p], p.name);
    WithoutSame(before, p.name);
    WithoutSame(after, p.name);
    WithoutOne(p);
  }

  lemma WithoutWellFormed(pairs: seq<Pair>, name: string)
    requires WellFormed(pairs)
    ensures WellFormed(Without(pairs, name)) && forall p :: p in Without(pairs, name) ==> p.name != name
  {
    var rest := Without(pairs, name);
    WithoutNames(pairs, name);
    WithoutDistinct(pairs, name);
    forall i | 0 <= i < |rest|
      ensures IsPair(rest[i])
    {
      assert rest[i] in pairs;
    }
  }

  /** Every operation keeps the list well formed. */
  lemma ApplyWellFormed(pairs: seq<Pair>, op: Op)
    requires WellFormed(pairs) && IsName(op.name) && (op.Set? ==> NUL !in op.value)
    ensures WellFormed(Apply(pairs, op))
  {
    var rest := Without(pairs, op.name);
    WithoutWellFormed(pairs, op.name);
    forall i | 0 <= i < |rest|
      ensures rest[i].name != op.name
    {
      assert rest[i] in rest;
    }
  }

  // ----- whole runs -----

  predicate Named(ops: seq<Op>, name: string) {
    ops != [] && (ops[0].name == name || Named(ops[1..], name))
  }

  /** The pairs that a run of operations does not touch. */
  function Untouched(pairs: seq<Pair>, ops: seq<Op>): seq<Pair> {
    if pairs == [] then []
    else (if Named(ops, pairs[0].name) then [] else [pairs[0]]) + Untouched(pairs[1..], ops)
  }

  /** The pair that the first operation sets, if it does and no later one names it. */
  function First(ops: seq<Op>): seq<Pair>
    requires ops != []
  {
    if ops[0].Set? && ops[0].memory && !Named(ops[1..], ops[0].name) then [Pair(ops[0].name, ops[0].value)] else []
  }

  /** The successful settings that no later operation on the same name follows. */
  function Lasting(ops: seq<Op>): seq<Pair> {
    if ops == [] then [] else First(ops) + Lasting(ops[1..])
  }

  lemma {:induction false} UntouchedAppend(a: seq<Pair>, b: seq<Pair>, ops: seq<Op>)
    ensures Untouched(a + b, ops) == Untouched(a, ops) + Untouched(b, ops)
    decreases |a|
  {
    if a == [] {
      assert a + b == b;
    } else {
      assert (a + b)[1..] == a[1..] + b;
      UntouchedAppend(a[1..], b, ops);
    }
  }

  lemma {:induction false} UntouchedFirst(pairs: seq<Pair>, ops: seq<Op>)
    requires ops != []
    ensures Untouched(Without(pairs, ops[0].name), ops[1..]) == Untouched(pairs, ops)
  {
    if pairs != [] {
      UntouchedFirst(pairs[1..], ops);
      var w := Without(pairs, ops[0].name);
      if pairs[0].name != ops[0].name {
        assert w[1..] == Without(pairs[1..], ops[0].name);
      }
    }
  }

  lemma {:induction false} UntouchedNone(pairs: seq<Pair>)
    ensures Untouched(pairs, []) == pairs
  {
    if pairs != [] {
      UntouchedNone(pairs[1..]);
    }
  }

  lemma UntouchedApply(pairs: seq<Pair>, ops: seq<Op>)
    requires ops != []
    ensures Untouched(Apply(pairs, ops[0]), ops[1..]) == Untouched(pairs, ops) + First(ops)
  {
    UntouchedFirst(pairs, ops);
    if ops[0].Set? && ops[0].memory {
      var p := Pair(ops[0].name, ops[0].value);
      UntouchedAppend(Without(pairs, p.name), [p], ops[1..]);
      assert Untouched([p], ops[1..]) == First(ops) by { assert [p][1..] == []; }
    }
  }

  /** After any run the list holds the pairs it did not touch, in their order, and then the
      settings that lasted, in the order they were made. */
  lemma {:induction false} RunLeaves(pairs: seq<Pair>, ops: seq<Op>)
    ensures Run(pairs, ops) == Untouched(pairs, ops) + Lasting(ops)
    decreases |ops|
  {
    if ops == [] {
      UntouchedNone(pairs);
    } else {
      RunLeaves(Apply(pairs, ops[0]), ops[1..]);
      UntouchedApply(pairs, ops);
      Regroup(Untouched(pairs, ops), First(ops), Lasting(ops[1..]));
    }
  }

  lemma {:induction false} RunWellFormed(pairs: seq<Pair>, ops: seq<Op>)
    requires WellFormed(pairs)
    requires forall i :: 0 <= i < |ops| ==> IsName(ops[i].name) && (ops[i].Set? ==> NUL !in ops[i].value)
    ensures WellFormed(Run(pairs, ops))
    decreases |ops|
  {
    if ops != [] {
      ApplyWellFormed(pairs, ops[0]);
      RunWellFormed(Apply(pairs, ops[0]), ops[1..]);
    }
  }

  lemma {:induction false} LookupAppend(a: seq<Pair>, b: seq<Pair>, name: string)
    ensures Lookup(a + b, name) == if Lookup(a, name).Some? then Lookup(a, name) else Lookup(b, name)
    decreases |a|
  {
    if a == [] {
      assert a + b == b;
    } else {
      assert (a + b)[1..] == a[1..] + b;
      LookupAppend(a[1..], b, name);
    }
  }

  lemma {:induction false} LookupWithout(pairs: seq<Pair>, gone: string, name: string)
    ensures Lookup(Without(pairs, gone), name) == if name == gone then None else Lookup(pairs, name)
  {
    if pairs != [] {
      LookupWithout(pairs[1..], gone, name);
      var w := Without(pairs, gone);
      if pairs[0].name != gone {
        assert w[1..] == Without(pairs[1..], gone);
      }
    }
  }

  /** What an operation does to the value of every name. */
  lemma ApplyLookup(pairs: seq<Pair>, op: Op, name: string)
    ensures Lookup(Apply(pairs, op), name) ==
            if name != op.name then Lookup(pairs, name)
            else if op.Set? && op.memory then Some(op.value) else None
  {
    LookupWithout(pairs, op.name, name);
    if op.Set? && op.memory {
      var p := Pair(op.name, op.value);
      LookupAppend(Without(pairs, op.name), [p], name);
      assert Lookup([p], name) == if name == op.name then Some(op.value) else None by { assert [p][1..] == []; }
    }
  }

  // ----- names of any kind -----

  ghost predicate ArePairs(pairs: seq<Pair>) {
    forall i :: 0 <= i < |pairs| ==> IsPair(pairs[i])
  }

  /** What comparing a name with a pair makes of them: the name and a `=` begin the pair. */
  predicate Matches(name: string, p: Pair) {
    name + "=" <= Text(p)
  }

  /** A search through the list: not there, there, or a pair that is the name itself, `=` included,
      so that the comparison runs past the end of both. */
  datatype Found = Missing | Found(k: nat) | Past

  function Search(pairs: seq<Pair>, name: string): Found {
    if pairs == [] then Missing
    else if Text(pairs[0]) == name then Past
    else if Matches(name, pairs[0]) then Found(0)
    else match Search(pairs[1..], name) case Found(k) => Found(k + 1) case other => other
  }

  lemma {:induction false} SearchAt(pairs: seq<Pair>, name: string)
    ensures match Search(pairs, name)
            case Missing => forall i :: 0 <= i < |pairs| ==> Text(pairs[i]) != name && !Matches(name, pairs[i])
            case Found(k) => k < |pairs| && Matches(name, pairs[k]) && Text(pairs[k]) != name
            case Past => exists i :: 0 <= i < |pairs| && Text(pairs[i]) == name
  {
    if pairs != [] {
      SearchAt(pairs[1..], name);
      if Search(pairs[1..], name).Past? {
        var i :| 0 <= i < |pairs[1..]| && Text(pairs[1..][i]) == name;
        assert Text(pairs[i + 1]) == name;
      }
    }
  }

  /** The pair that a name and a value are read back as: a `=` in the name ends it early. */
  function Entered(name: string, value: string): Pair {
    if name == [] then Pair("", value)
    else if name[0] == '=' then Pair("", name[1..] + "=" + value)
    else var p := Entered(name[1..], value); Pair([name[0]] + p.name, p.value)
  }

  lemma {:induction false} EnteredText(name: string, value: string)
    requires NUL !in name && NUL !in value
    ensures IsPair(Entered(name, value)) && Text(Entered(name, value)) == name + "=" + value
  {
    if name != [] {
      if name[0] == '=' {
        assert name == "=" + name[1..];
      } else {
        EnteredText(name[1..], value);
        assert name == [name[0]] + name[1..];
        var p := Entered(name[1..], value);
        assert Text(Entered(name, value)) == [name[0]] + Text(p);
      }
    }
  }

  lemma {:induction false} EnteredClean(name: string, value: string)
    requires IsName(name)
    ensures Entered(name, value) == Pair(name, value)
  {
    if name != [] {
      EnteredClean(name[1..], value);
      assert name == [name[0]] + name[1..];
    }
  }

  function Removed(pairs: seq<Pair>, k: nat): seq<Pair>
    requires k < |pairs|
  {
    pairs[..k] + pairs[k + 1..]
  }

  /** The list without the pair that a search for the name finds; none if the search runs past. */
  function Less(pairs: seq<Pair>, name: string): Option<seq<Pair>> {
    match Search(pairs, name)
    case Missing => Some(pairs)
    case Found(k) => if k < |pairs| then Some(Removed(pairs, k)) else None
    case Past => None
  }

  function Or<T>(a: Option<T>, b: T): T {
    match a case Some(x) => x case None => b
  }

  /** The value that a search for a name finds. */
  function Value(pairs: seq<Pair>, name: string): Option<string> {
    match Search(pairs, name)
    case Found(k) => if k < |pairs| then Some(pairs[k].value) else None
    case _ => None
  }

  /** An unset fails if the variable was there, others are, and the buffer could not be reallocated. */
  predicate Unsets(pairs: seq<Pair>, name: string, memory: bool) {
    Search(pairs, name).Missing? || Less(pairs, name) == Some([]) || memory
  }

  function Shifted(k: nat, f: Found): Found {
    match f case Found(j) => Found(k + j) case other => other
  }

  lemma SearchNext(pairs: seq<Pair>, name: string, k: nat)
    requires k < |pairs|
    ensures Shifted(k, Search(pairs[k..], name)) ==
            if Text(pairs[k]) == name then Past
            else if Matches(name, pairs[k]) then Found(k)
            else Shifted(k + 1, Search(pairs[k + 1..], name))
  {
    assert pairs[k..][1..] == pairs[k + 1..];
  }

  lemma NothingPacked(pairs: seq<Pair>)
    ensures Packed(pairs) == "" <==> pairs == []
  {
  }

  lemma PackedLast(pairs: seq<Pair>, p: Pair)
    ensures Packed(pairs + [p]) == Packed(pairs) + Entry(p)
  {
    PackedSplit(pairs, p, []);
  }

  /** An operation with any name. */
  function Act(pairs: seq<Pair>, op: Op): Option<seq<Pair>> {
    match Less(pairs, op.name)
    case None => None
    case Some(rest) => Some(if op.Set? && op.memory then rest + [Entered(op.name, op.value)] else rest)
  }

  /** A name without `=` begins a pair exactly if it is its name, and is never a whole pair. */
  lemma CleanMatch(name: string, p: Pair)
    requires IsName(name) && IsPair(p)
    ensures Text(p) != name && (Matches(name, p) <==> p.name == name)
  {
    assert Text(p)[|p.name|] == '=';
    if Matches(name, p) {
      assert (name + "=")[|name|] == '=' && Text(p)[|name|] == '=';
      assert |name| == |p.name|;
      assert name == Text(p)[..|name|] && p.name == Text(p)[..|p.name|];
    }
  }

  lemma {:induction false} CleanSearch(pairs: seq<Pair>, name: string)
    requires ArePairs(pairs) && IsName(name)
    ensures !Search(pairs, name).Past?
    ensures Search(pairs, name).Missing? <==> Lookup(pairs, name).None?
    ensures Search(pairs, name).Found? ==>
              var k := Search(pairs, name).k;
              k < |pairs| && pairs[k].name == name && Lookup(pairs, name) == Some(pairs[k].value)
    ensures Search(pairs, name).Missing? ==> forall p :: p in pairs ==> p.name != name
  {
    if pairs != [] {
      CleanMatch(name, pairs[0]);
      CleanSearch(pairs[1..], name);
      assert pairs == [pairs[0]] + pairs[1..];
    }
  }

  /** For names without `=` the operations are those on the ordered map. */
  lemma ActClean(pairs: seq<Pair>, op: Op)
    requires WellFormed(pairs) && IsName(op.name)
    ensures Act(pairs, op) == Some(Apply(pairs, op))
  {
    CleanSearch(pairs, op.name);
    if Search(pairs, op.name).Found? {
      var k := Search(pairs, op.name).k;
      assert pairs == pairs[..k] + [pairs[k]] + pairs[k + 1..];
      WithoutAt(pairs, pairs[..k], pairs[k], pairs[k + 1..]);
    } else {
      WithoutSame(pairs, op.name);
    }
    if op.Set? {
      EnteredClean(op.name, op.value);
    }
  }

  /** Pairs of other names are passed over. */
  lemma {:induction false} SearchLater(before: seq<Pair>, full: string, name: string, rest: seq<Pair>)
    requires IsName(name) && name + "=" <= full && forall p :: p in before ==> p.name != name && IsPair(p)
    ensures Search(before + rest, full) ==
            match Search(rest, full) case Found(k) => Found(|before| + k) case other => other
    decreases |before|
  {
    if before == [] {
      assert before + rest == rest;
    } else {
      var p := before[0];
      assert p in before;
      assert (before + rest)[1..] == before[1..] + rest;
      SearchLater(before[1..], full, name, rest);
      CleanMatch(name, p);
      assert full <= Text(p) ==> name + "=" <= Text(p);
    }
  }

  lemma {:induction false} EnteredEquals(name: string, part: string, value: string)
    requires IsName(name)
    ensures Entered(name + "=" + part, value) == Pair(name, part + "=" + value)
  {
    var full := name + "=" + part;
    if name == [] {
      assert full[1..] == part;
    } else {
      assert full[1..] == name[1..] + "=" + part;
      EnteredEquals(name[1..], part, value);
      assert name == [name[0]] + name[1..];
    }
  }

  /** A name with a `=` in it takes the variable before the `=` for its own: setting it replaces a
      value that begins like the rest of the name. */
  lemma EqualsReplaces(before: seq<Pair>, name: string, part: string, value: string, value': string, after: seq<Pair>)
    requires IsName(name) && forall p :: p in before ==> p.name != name && IsPair(p)
    ensures Act(before + [Pair(name, part + "=" + value)] + after, Set(name + "=" + part, value', true)) ==
            Some(before + after + [Pair(name, part + "=" + value')])
    decreases |before|
  {
    var p, full := Pair(name, part + "=" + value), name + "=" + part;
    SearchLater(before, full, name, [p] + after);
    assert before + [p] + after == before + ([p] + after);
    assert Text(p) == full + "=" + value;
    assert Search([p] + after, full) == Found(0);
    EnteredEquals(name, part, value');
    assert Removed(before + [p] + after, |before|) == before + after;
  }

  ghost predicate FindsOwn(pairs: seq<Pair>, name: string) {
    match Search(pairs, name)
    case Missing => Lookup(pairs, name).None?
    case Found(k) => k < |pairs| && pairs[k].name == name
    case Past => false
  }

  function FirstEquals(name: string): (i: nat)
    requires '=' in name
    ensures i < |name| && name[i] == '=' && '=' !in name[..i]
  {
    if name[0] == '=' then 0
    else
      assert name == [name[0]] + name[1..];
      var i := FirstEquals(name[1..]);
      assert name[..i + 1] == [name[0]] + name[1..][..i];
      i + 1
  }

  /** Whatever is stored, a search stays inside the strings and finds only the variable of that
      name: exactly for names without `=`. */
  lemma NameExact(name: string)
    requires NUL !in name
    ensures (forall pairs: seq<Pair> :: WellFormed(pairs) ==> FindsOwn(pairs, name)) <==> '=' !in name
  {
    if '=' in name {
      var i := FirstEquals(name);
      var p := Pair(name[..i], name[i + 1..]);
      assert Text(p) == name;
      assert Search([p], name) == Past;
      assert WellFormed([p]) && !FindsOwn([p], name);
    } else {
      forall pairs: seq<Pair> | WellFormed(pairs)
        ensures FindsOwn(pairs, name)
      {
        CleanSearch(pairs, name);
      }
    }
  }

  /** The same for what a search finds and when an unset succeeds. */
  lemma CleanValue(pairs: seq<Pair>, name: string, memory: bool)
    requires WellFormed(pairs) && IsName(name)
    ensures Value(pairs, name) == Lookup(pairs, name)
    ensures Unsets(pairs, name, memory) <==> Lookup(pairs, name).None? || Without(pairs, name) == [] || memory
  {
    CleanSearch(pairs, name);
    ActClean(pairs, Unset(name));
  }
}
