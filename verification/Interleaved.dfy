/** Everything at once: goroutines of pages, embeds, sends, retries and redactions, section by section
    in any order. The tables agree wherever no redaction is between taking an entry and setting it again. */
module Interleaved {
  import opened Wrappers
  import opened Messages
  import opened SortedTree
  import opened Timeline
  import opened Runs

  /** A goroutine and where it stands. What a redaction goes on to do depends on the entry that it took,
      what a retry does on the event that it loaded. */
  datatype Worker =
    | Running(todo: seq<Action>)
    | Redacting(id: string, reason: string)
    | Removing(m: Message, reason: string)     // the entry is taken from the index
    | Resetting(m: Message, reason: string)    // and removed from the tree
    | Loading(m: Message, outcome: Decryption)

  function WorkerOf(room: string, step: Step): Worker {
    match step
    case LocalSend(nonce, ts, author, content) => Running([DoSet(PlaceholderMessage(nonce, ts, author, content))])
    case Live(h, content, txn) => Running([DoSet(EventMessage(h, content, txn))])
    case Page(item) => Running(PageProgram(room, item))
    case Embeds(m) => Running([WriteBack(m)])
    case Redaction(id, reason) => Redacting(id, reason)
    case Retry(m, outcome) => Loading(m, outcome)
  }

  /** The section that a worker runs next, if it changes anything. */
  function Next(s: State, w: Worker): Option<Action> {
    match w
    case Running(todo) => if todo == [] then None else Some(todo[0])
    case Redacting(id, _) => if id in s.index then Some(TakeIndex(id)) else None
    case Removing(m, _) => Some(DropTree(m))
    case Resetting(m, reason) => Some(DoSet(RedactedFrom(m, reason)))
    case Loading(_, _) => None
  }

  function After(s: State, w: Worker): Worker {
    match w
    case Running(todo) => Running(if todo == [] then [] else todo[1..])
    case Redacting(id, reason) => if id in s.index then Removing(s.index[id], reason) else Running([])
    case Removing(m, reason) => Resetting(m, reason)
    case Resetting(_, _) => Running([])
    case Loading(m, outcome) => Running(RetryProgram(s, m, outcome))
  }

  datatype Room = Room(s: State, workers: seq<Worker>)

  function Turn(r: Room, i: nat): Room {
    if i >= |r.workers| then r
    else
      var w := r.workers[i];
      Room(if Next(r.s, w).Some? then Act(r.s, Next(r.s, w).value) else r.s, r.workers[i := After(r.s, w)])
  }

  function Turns(r: Room, sched: seq<nat>): Room
    decreases |sched|
  {
    if sched == [] then r else Turns(Turn(r, sched[0]), sched[1..])
  }

  // ---------------------------------------------------------------- the invariant

  /** A redaction of `k` is between taking the entry and setting it again. */
  predicate Opens(w: Worker, k: string) {
    (w.Removing? || w.Resetting?) && w.m.id == k
  }

  ghost predicate Open(ws: seq<Worker>, k: string) {
    exists i :: 0 <= i < |ws| && Opens(ws[i], k)
  }

  ghost predicate WorkerFits(w: Worker, clock: Clock) {
    match w
    case Running(todo) => AllKeep(todo, clock)
    case Redacting(id, _) => !IsPlaceholder(id)
    case Removing(m, _) => Entry(m, clock) && !IsPlaceholder(m.id)
    case Resetting(m, _) => Entry(m, clock) && !IsPlaceholder(m.id)
    case Loading(_, _) => true
  }

  predicate Entry(m: Message, clock: Clock) {
    m.ts == clock(m.id) && m.nonce == ""
  }

  /** Index and tree say the same about `k`. */
  ghost predicate AgreesAt(s: State, k: string) {
    && (k in s.index ==> s.index[k] in s.tree)
    && (forall x :: x in s.tree && x.id == k ==> k in s.index && s.index[k] == x)
  }

  /** What holds of the tables between any two sections. */
  ghost predicate Steady(s: State, clock: Clock) {
    && Clocked(s, clock)
    && (forall k :: k in s.index ==> s.index[k].id == k && Entry(s.index[k], clock))
    && PlaceholdersWait(s)
    && RawFits(s, clock)
  }

  ghost predicate RoomInv(r: Room, clock: Clock) {
    && Steady(r.s, clock)
    && (forall i :: 0 <= i < |r.workers| ==> WorkerFits(r.workers[i], clock))
    && (forall k :: !Open(r.workers, k) ==> AgreesAt(r.s, k))
  }

  lemma SetTreeUnder(s: State, m: Message, clock: Clock)
    requires Clocked(s, clock) && m.ts == clock(m.id)
    ensures forall x :: x in SetState(s, m).tree <==>
              x == Stamped(s, m) || (x in s.tree && x.id != m.id && x.id !in Gone(s, m))
  {
    SetTree(s, m);
  }

  lemma PutUnder(t: Tree, m: Message, clock: Clock)
    requires Sorted(t) && (forall x :: x in t ==> x.ts == clock(x.id)) && m.ts == clock(m.id)
    ensures forall x :: x in Put(t, m) <==> x == m || (x in t && x.id != m.id)
  {
    PutSpec(t, m);
  }

  lemma SetKeepsSteady(s: State, m: Message, clock: Clock)
    requires Steady(s, clock) && m.ts == clock(m.id) && (IsPlaceholder(m.id) ==> m.nonce == "")
    ensures Steady(SetState(s, m), clock)
  {
    ClockedStep(s, DoSet(m), clock);
    SetTables(s, m);
  }

  lemma WriteBackKeepsSteady(s: State, m: Message, clock: Clock)
    requires Steady(s, clock) && Keeps(WriteBack(m), clock)
    ensures Steady(Stored(s, m), clock)
  {
    ClockedStep(s, WriteBack(m), clock);
  }

  /** A section that keeps the tables keeps them between any others, and index and tree agree afterwards
      wherever they did. */
  lemma KeepsSteady(s: State, a: Action, clock: Clock)
    requires Steady(s, clock) && Keeps(a, clock)
    ensures Steady(Act(s, a), clock)
  {
    match a
    case DoSet(m) => SetKeepsSteady(s, m, clock);
    case WriteBack(m) => WriteBackKeepsSteady(s, m, clock);
    case StoreRaw(_) =>
    case DropRaw(_) =>
    case StoreNonce(_) =>
  }

  lemma KeepsAgreement(s: State, a: Action, clock: Clock, k: string)
    requires Steady(s, clock) && Keeps(a, clock) && AgreesAt(s, k)
    ensures AgreesAt(Act(s, a), k)
  {
    if a.DoSet? {
      SetTreeUnder(s, a.m, clock);
      SetTables(s, a.m);
    } else if a.WriteBack? {
      PutUnder(s.tree, a.m, clock);
    }
  }

  /** Whatever stood there before, after the `Set` of a redaction index and tree agree. */
  lemma SetCloses(s: State, m: Message, clock: Clock)
    requires Steady(s, clock) && m.ts == clock(m.id)
    ensures AgreesAt(SetState(s, m), m.id)
  {
    SetTreeUnder(s, m, clock);
    SetTables(s, m);
    assert Stamped(s, m) in SetState(s, m).tree;
  }

  lemma TakeKeeps(s: State, id: string, clock: Clock)
    requires Steady(s, clock) && !IsPlaceholder(id)
    ensures Steady(Act(s, TakeIndex(id)), clock)
    ensures forall k :: k != id && AgreesAt(s, k) ==> AgreesAt(Act(s, TakeIndex(id)), k)
  {
  }

  lemma DropKeeps(s: State, m: Message, clock: Clock)
    requires Steady(s, clock) && Entry(m, clock)
    ensures Steady(Act(s, DropTree(m)), clock)
    ensures forall k :: k != m.id && AgreesAt(s, k) ==> AgreesAt(Act(s, DropTree(m)), k)
  {
    ClockedStep(s, DropTree(m), clock);
    DropSpec(s.tree, m);
  }

  lemma AfterFits(s: State, w: Worker, clock: Clock)
    requires Steady(s, clock) && WorkerFits(w, clock)
    ensures WorkerFits(After(s, w), clock)
  {
  }

  /** An identifier that was open and is not any more was closed by the `Set` of this turn. */
  lemma TurnOpens(r: Room, i: nat, k: string)
    requires i < |r.workers| && !Open(Turn(r, i).workers, k)
    ensures Open(r.workers, k) ==> r.workers[i].Resetting? && r.workers[i].m.id == k
    ensures !Opens(After(r.s, r.workers[i]), k)
  {
    var ws, ws' := r.workers, Turn(r, i).workers;
    assert ws'[i] == After(r.s, ws[i]);
    assert forall j :: 0 <= j < |ws| && j != i ==> ws'[j] == ws[j];
  }

  lemma TurnSteady(r: Room, i: nat, clock: Clock)
    requires RoomInv(r, clock) && i < |r.workers|
    ensures Steady(Turn(r, i).s, clock)
  {
    var s, w := r.s, r.workers[i];
    assert WorkerFits(w, clock);
    match w
    case Running(todo) => if todo != [] { KeepsSteady(s, todo[0], clock); }
    case Redacting(id, _) => TakeKeeps(s, id, clock);
    case Removing(m, _) => DropKeeps(s, m, clock);
    case Resetting(m, reason) => KeepsSteady(s, DoSet(RedactedFrom(m, reason)), clock);
    case Loading(_, _) =>
  }

  lemma TurnAgrees(r: Room, i: nat, clock: Clock, k: string)
    requires RoomInv(r, clock) && i < |r.workers| && !Open(Turn(r, i).workers, k)
    ensures AgreesAt(Turn(r, i).s, k)
  {
    var s, w := r.s, r.workers[i];
    assert WorkerFits(w, clock);
    TurnOpens(r, i, k);
    match w
    case Running(todo) => if todo != [] { KeepsAgreement(s, todo[0], clock, k); }
    case Redacting(id, _) =>
      if id in s.index {
        assert Opens(After(s, w), id);
        TakeKeeps(s, id, clock);
      }
    case Removing(m, _) =>
      assert Opens(After(s, w), m.id);
      DropKeeps(s, m, clock);
    case Resetting(m, reason) =>
      if m.id == k {
        SetCloses(s, RedactedFrom(m, reason), clock);
      } else {
        KeepsAgreement(s, DoSet(RedactedFrom(m, reason)), clock, k);
      }
    case Loading(_, _) =>
  }

  lemma TurnKeeps(r: Room, i: nat, clock: Clock)
    requires RoomInv(r, clock)
    ensures RoomInv(Turn(r, i), clock)
  {
    if i < |r.workers| {
      AfterFits(r.s, r.workers[i], clock);
      TurnSteady(r, i, clock);
      forall k | !Open(Turn(r, i).workers, k) ensures AgreesAt(Turn(r, i).s, k) {
        TurnAgrees(r, i, clock, k);
      }
    }
  }

  lemma {:induction false} TurnsKeep(r: Room, sched: seq<nat>, clock: Clock)
    requires RoomInv(r, clock)
    ensures RoomInv(Turns(r, sched), clock)
    decreases |sched|
  {
    if sched != [] {
      TurnKeeps(r, sched[0], clock);
      TurnsKeep(Turn(r, sched[0]), sched[1..], clock);
    }
  }

  // ---------------------------------------------------------------- all steps at once

  function Workers(room: string, steps: seq<Step>): (r: seq<Worker>)
    ensures |r| == |steps| && forall i :: 0 <= i < |steps| ==> r[i] == WorkerOf(room, steps[i])
  {
    seq(|steps|, i requires 0 <= i < |steps| => WorkerOf(room, steps[i]))
  }

  lemma WorkerOfFits(room: string, step: Step, clock: Clock)
    requires Fits(step, clock)
    ensures WorkerFits(WorkerOf(room, step), clock)
  {
  }

  lemma InvIsSteady(s: State, clock: Clock)
    requires Inv(s, clock)
    ensures Steady(s, clock) && forall k :: AgreesAt(s, k)
  {
  }

  lemma SteadyIsInv(s: State, clock: Clock)
    requires Steady(s, clock) && forall k :: AgreesAt(s, k)
    ensures Inv(s, clock)
  {
    forall x | x in s.tree ensures x.id in s.index && s.index[x.id] == x {
      assert AgreesAt(s, x.id);
    }
    forall k | k in s.index ensures s.index[k] in s.tree {
      assert AgreesAt(s, k);
    }
  }

  /** Any sends, sync messages, page events, embeds, redactions and retries, all running at once, stopped
      after any number of sections in any order: index and tree agree under every identifier that no
      redaction has open. Hence all tables are consistent whenever no redaction is half done. */
  lemma InterleavedAgree(s: State, steps: seq<Step>, sched: seq<nat>, clock: Clock)
    requires Inv(s, clock) && AllFit(steps, clock)
    ensures var r := Turns(Room(s, Workers(s.room, steps)), sched);
      && (forall k :: !Open(r.workers, k) ==> AgreesAt(r.s, k))
      && ((forall k :: !Open(r.workers, k)) ==> Inv(r.s, clock))
  {
    var r0 := Room(s, Workers(s.room, steps));
    InvIsSteady(s, clock);
    forall i | 0 <= i < |steps| ensures WorkerFits(r0.workers[i], clock) {
      WorkerOfFits(s.room, steps[i], clock);
    }
    TurnsKeep(r0, sched, clock);
    var r := Turns(r0, sched);
    if forall k :: !Open(r.workers, k) {
      SteadyIsInv(r.s, clock);
    }
  }

  /** Between the two halves of a redaction they do not agree: the entry shows in the tree alone. */
  lemma OpenDisagrees(s: State, id: string, reason: string, clock: Clock)
    requires Inv(s, clock) && id in s.index
    ensures var r := Turns(Room(s, [Redacting(id, reason)]), [0]);
            Open(r.workers, id) && !AgreesAt(r.s, id)
  {
    var r0 := Room(s, [Redacting(id, reason)]);
    var r := Turn(r0, 0);
    assert [0][1..] == [];
    assert Turns(r0, [0]) == r;
    assert Opens(r.workers[0], id);
    assert s.index[id] in r.s.tree;
  }

  // ---------------------------------------------------------------- one step alone

  /** Enough turns for a worker that is alone. */
  function Zeros(n: nat): seq<nat> {
    seq(n, i requires 0 <= i < n => 0)
  }

  lemma OneTurn(r: Room, n: nat)
    ensures Turns(r, Zeros(n + 1)) == Turns(Turn(r, 0), Zeros(n))
  {
    assert Zeros(n + 1)[1..] == Zeros(n);
  }

  lemma {:induction false} RunsAlone(s: State, p: seq<Action>)
    ensures Turns(Room(s, [Running(p)]), Zeros(|p|)) == Room(ActAll(s, p), [Running([])])
    decreases |p|
  {
    if p != [] {
      OneTurn(Room(s, [Running(p)]), |p| - 1);
      assert [Running(p)][0 := Running(p[1..])] == [Running(p[1..])];
      RunsAlone(Act(s, p[0]), p[1..]);
    }
  }

  /** A worker that runs alone does what its step does in one go: the programs of the two agree. */
  lemma AloneIsStep(s: State, step: Step) returns (n: nat)
    requires forall k :: k in s.index ==> s.index[k].id == k
    ensures Turns(Room(s, Workers(s.room, [step])), Zeros(n)) == Room(Do(s, step), [Running([])])
  {
    var w := WorkerOf(s.room, step);
    assert Workers(s.room, [step]) == [w];
    match step
    case Redaction(id, reason) => n := RedactsAlone(s, id, reason);
    case Retry(m, outcome) =>
      n := |RetryProgram(s, m, outcome)| + 1;
      OneTurn(Room(s, [w]), n - 1);
      assert [w][0 := Running(RetryProgram(s, m, outcome))] == [Running(RetryProgram(s, m, outcome))];
      RunsAlone(s, RetryProgram(s, m, outcome));
    case _ =>
      n := |w.todo|;
      RunsAlone(s, w.todo);
  }

  lemma RedactsAlone(s: State, id: string, reason: string) returns (n: nat)
    requires forall k :: k in s.index ==> s.index[k].id == k
    ensures Turns(Room(s, [Redacting(id, reason)]), Zeros(n)) == Room(Do(s, Redaction(id, reason)), [Running([])])
  {
    var r0 := Room(s, [Redacting(id, reason)]);
    if id in s.index {
      var m := s.index[id];
      var s1, s2 := Act(s, TakeIndex(id)), Act(Act(s, TakeIndex(id)), DropTree(m));
      var r1, r2 := Room(s1, [Removing(m, reason)]), Room(s2, [Resetting(m, reason)]);
      var r3 := Room(Act(s2, DoSet(RedactedFrom(m, reason))), [Running([])]);
      n := 3;
      assert Turn(r0, 0) == r1 && Turn(r1, 0) == r2 && Turn(r2, 0) == r3;
      OneTurn(r0, 2);
      OneTurn(r1, 1);
      OneTurn(r2, 0);
      ActThree(s, TakeIndex(id), DropTree(m), DoSet(RedactedFrom(m, reason)));
    } else {
      n := 1;
      OneTurn(r0, 0);
      assert Turn(r0, 0) == Room(s, [Running([])]);
    }
  }
}
