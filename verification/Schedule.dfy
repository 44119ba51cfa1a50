/** The goroutines of a history page run in any order: what they leave does not depend on it. */
module Schedule {
  import opened Wrappers
  import opened Messages
  import opened SortedTree
  import opened Timeline
  import opened Runs

  // ---------------------------------------------------------------- one identifier at a time

  /** What every atomic section keeps, whatever it is given. */
  ghost predicate Solid(s: State) {
    && Sorted(s.tree)
    && (forall k :: k in s.nonces ==> s.nonces[k].id == k)
    && s.pendingRedactions == map[]
  }

  /** Two states hold the same under identifier `k`. */
  ghost predicate AgreeAt(s: State, s': State, k: string) {
    && (forall x: Message :: x.id == k ==> (x in s.tree <==> x in s'.tree))
    && At(s.index, k) == At(s'.index, k)
    && At(s.nonces, k) == At(s'.nonces, k)
    && At(s.raw, k) == At(s'.raw, k)
  }

  ghost predicate AgreeOn(s: State, s': State, ids: set<string>) {
    forall k :: k in ids ==> AgreeAt(s, s', k)
  }

  /** The identifiers under which an atomic section reads or writes. */
  function Touched(a: Action): set<string> {
    match a
    case DoSet(m) => {m.id} + if m.nonce != "" then {m.nonce} else {}
    case WriteBack(m) => {m.id}
    case DropTree(m) => {m.id}
    case TakeIndex(id) => {id}
    case StoreRaw(h) => {h.id}
    case DropRaw(id) => {id}
    case StoreNonce(m) => {m.id}
  }

  predicate Within(p: seq<Action>, ids: set<string>) {
    forall i :: 0 <= i < |p| ==> Touched(p[i]) <= ids
  }

  /** Items of the tree with identifier `k` after a section, as a function of those before. */
  ghost predicate ItemAfter(s: State, a: Action, x: Message) {
    match a
    case DoSet(m) =>
      x == Stamped(s, m)
      || (x in s.tree && !SameKey(x, m) && !(Replaces(s, m) && SameKey(x, s.nonces[m.nonce])))
    case WriteBack(m) => x == m || (x in s.tree && !SameKey(x, m))
    case DropTree(m) => x in s.tree && !SameKey(x, m)
    case _ => x in s.tree
  }

  lemma ActItems(s: State, a: Action)
    requires Solid(s)
    ensures Solid(Act(s, a)) && Act(s, a).room == s.room
    ensures forall x :: x in Act(s, a).tree <==> ItemAfter(s, a, x)
  {
    match a
    case DoSet(m) => SetTree(s, m); SetTables(s, m);
    case WriteBack(m) => PutSpec(s.tree, m);
    case DropTree(m) => DropSpec(s.tree, m);
    case _ =>
  }

  /** A section leaves everything alone that stands under other identifiers. */
  lemma ActFrame(s: State, a: Action, k: string)
    requires Solid(s) && k !in Touched(a)
    ensures AgreeAt(s, Act(s, a), k)
  {
    ActItems(s, a);
    if a.DoSet? {
      SetTables(s, a.m);
    }
    forall x: Message | x.id == k ensures x in s.tree <==> x in Act(s, a).tree {
      assert x in s.tree <==> ItemAfter(s, a, x);
    }
  }

  /** What a section leaves under `k` depends only on what stood under the identifiers it touches and under `k`. */
  lemma ActLocal(s: State, s': State, a: Action, ids: set<string>)
    requires Solid(s) && Solid(s') && s.room == s'.room
    requires AgreeOn(s, s', ids) && Touched(a) <= ids
    ensures AgreeOn(Act(s, a), Act(s', a), ids)
  {
    forall k | k in ids ensures AgreeAt(Act(s, a), Act(s', a), k) {
      ActLocalAt(s, s', a, ids, k);
    }
  }

  lemma ActLocalAt(s: State, s': State, a: Action, ids: set<string>, k: string)
    requires Solid(s) && Solid(s') && s.room == s'.room
    requires AgreeOn(s, s', ids) && Touched(a) <= ids && k in ids
    ensures AgreeAt(Act(s, a), Act(s', a), k)
  {
    forall x: Message | x.id == k ensures x in Act(s, a).tree <==> x in Act(s', a).tree {
      ActItems(s, a);
      ActItems(s', a);
      ItemLocal(s, s', a, ids, x);
    }
    assert AgreeAt(s, s', k);
    if a.DoSet? {
      TablesLocal(s, s', a.m, ids, k);
    }
  }

  lemma ItemLocal(s: State, s': State, a: Action, ids: set<string>, x: Message)
    requires s.room == s'.room && AgreeOn(s, s', ids) && Touched(a) <= ids && x.id in ids
    ensures ItemAfter(s, a, x) <==> ItemAfter(s', a, x)
  {
  }

  lemma TablesLocal(s: State, s': State, m: Message, ids: set<string>, k: string)
    requires Solid(s) && Solid(s') && s.room == s'.room
    requires AgreeOn(s, s', ids) && Touched(DoSet(m)) <= ids && k in ids
    ensures At(SetState(s, m).index, k) == At(SetState(s', m).index, k)
    ensures At(SetState(s, m).nonces, k) == At(SetState(s', m).nonces, k)
    ensures At(SetState(s, m).raw, k) == At(SetState(s', m).raw, k)
  {
    GoneLocal(s, s', m, ids);
    assert AgreeAt(s, s', k);
    assert At(s.index, k) == At(s'.index, k) && At(s.nonces, k) == At(s'.nonces, k) && At(s.raw, k) == At(s'.raw, k);
    SetTables(s, m);
    SetTables(s', m);
  }

  lemma GoneLocal(s: State, s': State, m: Message, ids: set<string>)
    requires AgreeOn(s, s', ids) && Touched(DoSet(m)) <= ids
    ensures Gone(s, m) == Gone(s', m)
  {
  }

  lemma {:induction false} ProgramLocal(s: State, s': State, p: seq<Action>, ids: set<string>)
    requires Solid(s) && Solid(s') && s.room == s'.room
    requires AgreeOn(s, s', ids) && Within(p, ids)
    ensures AgreeOn(ActAll(s, p), ActAll(s', p), ids)
    decreases |p|
  {
    if p != [] {
      ActLocal(s, s', p[0], ids);
      ActItems(s, p[0]);
      ActItems(s', p[0]);
      ProgramLocal(Act(s, p[0]), Act(s', p[0]), p[1..], ids);
    }
  }

  /** States that hold the same under every identifier are equal. */
  lemma StatesEqual(s: State, s': State)
    requires Solid(s) && Solid(s') && s.room == s'.room
    requires forall k :: AgreeAt(s, s', k)
    ensures s == s'
  {
    forall x ensures x in s.tree <==> x in s'.tree {
      assert AgreeAt(s, s', x.id);
    }
    SortedUnique(s.tree, s'.tree);
    MapsEqual(s.index, s'.index) by {
      forall k ensures At(s.index, k) == At(s'.index, k) { assert AgreeAt(s, s', k); }
    }
    MapsEqual(s.nonces, s'.nonces) by {
      forall k ensures At(s.nonces, k) == At(s'.nonces, k) { assert AgreeAt(s, s', k); }
    }
    MapsEqual(s.raw, s'.raw) by {
      forall k ensures At(s.raw, k) == At(s'.raw, k) { assert AgreeAt(s, s', k); }
    }
  }

  // ---------------------------------------------------------------- goroutines

  /** A schedule names, section by section, the goroutine that runs next; it is complete when it
      runs every goroutine to its end. */
  predicate Complete(threads: seq<seq<Action>>, sched: seq<nat>)
    decreases |sched|
  {
    if sched == [] then forall i :: 0 <= i < |threads| ==> threads[i] == []
    else
      var i := sched[0];
      i < |threads| && threads[i] != [] && Complete(threads[i := threads[i][1..]], sched[1..])
  }

  function Interleave(s: State, threads: seq<seq<Action>>, sched: seq<nat>): State
    requires Complete(threads, sched)
    decreases |sched|
  {
    if sched == [] then s
    else
      var i := sched[0];
      Interleave(Act(s, threads[i][0]), threads[i := threads[i][1..]], sched[1..])
  }

  /** The sections of a schedule, in the order in which they run. */
  function Order(threads: seq<seq<Action>>, sched: seq<nat>): seq<Action>
    requires Complete(threads, sched)
    decreases |sched|
  {
    if sched == [] then []
    else
      var i := sched[0];
      [threads[i][0]] + Order(threads[i := threads[i][1..]], sched[1..])
  }

  lemma {:induction false} InterleaveIsOrder(s: State, threads: seq<seq<Action>>, sched: seq<nat>)
    requires Complete(threads, sched)
    ensures Interleave(s, threads, sched) == ActAll(s, Order(threads, sched))
    decreases |sched|
  {
    if sched != [] {
      var a, rest := threads[sched[0]][0], threads[sched[0] := threads[sched[0]][1..]];
      InterleaveIsOrder(Act(s, a), rest, sched[1..]);
      ActCons(s, a, Order(rest, sched[1..]));
    }
  }

  /** Goroutine after goroutine, each to its end. */
  function OneByOne(s: State, threads: seq<seq<Action>>): State
    decreases |threads|
  {
    if threads == [] then s else OneByOne(ActAll(s, threads[0]), threads[1..])
  }

  /** Goroutines that touch disjoint identifiers. */
  predicate Apart(threads: seq<seq<Action>>, feet: seq<set<string>>) {
    && |threads| == |feet|
    && (forall i :: 0 <= i < |threads| ==> Within(threads[i], feet[i]))
    && (forall i, j :: 0 <= i < j < |feet| ==> feet[i] !! feet[j])
  }

  /** `f` holds, under the identifiers of each goroutine, what that goroutine alone would have left,
      and is unchanged elsewhere. */
  ghost predicate Result(s: State, threads: seq<seq<Action>>, feet: seq<set<string>>, f: State)
    requires |threads| == |feet|
  {
    && Solid(f) && f.room == s.room
    && (forall i :: 0 <= i < |threads| ==> AgreeOn(f, ActAll(s, threads[i]), feet[i]))
    && (forall k :: (forall i :: 0 <= i < |feet| ==> k !in feet[i]) ==> AgreeAt(f, s, k))
  }

  lemma ResultUnique(s: State, threads: seq<seq<Action>>, feet: seq<set<string>>, f: State, f': State)
    requires |threads| == |feet|
    requires Result(s, threads, feet, f) && Result(s, threads, feet, f')
    ensures f == f'
  {
    forall k ensures AgreeAt(f, f', k) {
      if i :| 0 <= i < |feet| && k in feet[i] {
        var own := ActAll(s, threads[i]);
        assert AgreeAt(f, own, k) && AgreeAt(f', own, k);
      } else {
        assert AgreeAt(f, s, k) && AgreeAt(f', s, k);
      }
    }
    StatesEqual(f, f');
  }

  /** One section of goroutine `i` does not show under the identifiers of another. */
  lemma OthersUnmoved(s: State, threads: seq<seq<Action>>, feet: seq<set<string>>, i: nat, j: nat)
    requires Solid(s) && Apart(threads, feet)
    requires i < |threads| && j < |threads| && i != j && threads[i] != []
    ensures AgreeOn(ActAll(Act(s, threads[i][0]), threads[j]), ActAll(s, threads[j]), feet[j])
  {
    var a := threads[i][0];
    ActItems(s, a);
    assert Touched(a) <= feet[i] && feet[i] !! feet[j];
    forall k | k in feet[j] ensures AgreeAt(Act(s, a), s, k) {
      ActFrame(s, a, k);
    }
    ProgramLocal(Act(s, a), s, threads[j], feet[j]);
  }

  lemma {:induction false} InterleaveResult(s: State, threads: seq<seq<Action>>, feet: seq<set<string>>, sched: seq<nat>)
    requires Solid(s) && Apart(threads, feet) && Complete(threads, sched)
    ensures Result(s, threads, feet, Interleave(s, threads, sched))
    decreases |sched|
  {
    var f := Interleave(s, threads, sched);
    if sched != [] {
      var i, a := sched[0], threads[sched[0]][0];
      var s1, rest := Act(s, a), threads[i := threads[i][1..]];
      ActItems(s, a);
      InterleaveResult(s1, rest, feet, sched[1..]);
      forall j | 0 <= j < |threads| ensures AgreeOn(f, ActAll(s, threads[j]), feet[j]) {
        assert AgreeOn(f, ActAll(s1, rest[j]), feet[j]);
        if j != i {
          OthersUnmoved(s, threads, feet, i, j);
          AgreeThrough(f, ActAll(s1, rest[j]), ActAll(s, threads[j]), feet[j]);
        }
      }
      forall k | forall j :: 0 <= j < |feet| ==> k !in feet[j] ensures AgreeAt(f, s, k) {
        assert k !in feet[i] && Touched(a) <= feet[i];
        ActFrame(s, a, k);
        assert AgreeAt(f, s1, k);
      }
    }
  }

  /** Under an identifier of goroutine `i` the end state holds what that goroutine alone would have left. */
  lemma InterleaveAt(s: State, threads: seq<seq<Action>>, feet: seq<set<string>>, sched: seq<nat>, i: nat, k: string)
    requires Solid(s) && Apart(threads, feet) && Complete(threads, sched)
    requires i < |threads| && k in feet[i]
    ensures AgreeAt(Interleave(s, threads, sched), ActAll(s, threads[i]), k)
  {
    InterleaveResult(s, threads, feet, sched);
    assert AgreeOn(Interleave(s, threads, sched), ActAll(s, threads[i]), feet[i]);
  }

  lemma InterleaveElsewhere(s: State, threads: seq<seq<Action>>, feet: seq<set<string>>, sched: seq<nat>, k: string)
    requires Solid(s) && Apart(threads, feet) && Complete(threads, sched)
    requires forall i :: 0 <= i < |feet| ==> k !in feet[i]
    ensures AgreeAt(Interleave(s, threads, sched), s, k)
  {
    InterleaveResult(s, threads, feet, sched);
  }

  lemma AgreeThrough(a: State, b: State, c: State, ids: set<string>)
    requires AgreeOn(a, b, ids) && AgreeOn(b, c, ids)
    ensures AgreeOn(a, c, ids)
  {
  }

  /** The order of one whole goroutine after the other is among the schedules. */
  lemma {:induction false} SequentialSchedule(s: State, threads: seq<seq<Action>>) returns (sched: seq<nat>)
    ensures Complete(threads, sched) && Interleave(s, threads, sched) == OneByOne(s, threads)
  {
    sched := DrainFrom(s, threads, 0);
  }

  /** The schedule that drains the goroutines from the `n`-th on, the earlier ones being done. */
  lemma {:induction false} DrainFrom(s: State, threads: seq<seq<Action>>, n: nat) returns (sched: seq<nat>)
    requires n <= |threads| && forall i :: 0 <= i < n ==> threads[i] == []
    ensures Complete(threads, sched) && Interleave(s, threads, sched) == OneByOne(s, threads[n..])
    decreases |threads| - n, if n < |threads| then |threads[n]| else 0
  {
    if n == |threads| {
      sched := [];
    } else if threads[n] == [] {
      sched := DrainFrom(s, threads, n + 1);
      assert threads[n..][1..] == threads[n + 1..];
    } else {
      var rest := threads[n := threads[n][1..]];
      var tail := DrainFrom(Act(s, threads[n][0]), rest, n);
      sched := [n] + tail;
      assert sched[1..] == tail;
      assert rest[n..][1..] == threads[n..][1..];
    }
  }

  /** Schedule independence: every interleaving of goroutines that touch disjoint identifiers ends in
      the state that running them one by one ends in. */
  lemma ScheduleIndependent(s: State, threads: seq<seq<Action>>, feet: seq<set<string>>, sched: seq<nat>)
    requires Solid(s) && Apart(threads, feet) && Complete(threads, sched)
    ensures Interleave(s, threads, sched) == OneByOne(s, threads)
  {
    var sequential := SequentialSchedule(s, threads);
    InterleaveResult(s, threads, feet, sched);
    InterleaveResult(s, threads, feet, sequential);
    ResultUnique(s, threads, feet, Interleave(s, threads, sched), Interleave(s, threads, sequential));
  }
}
