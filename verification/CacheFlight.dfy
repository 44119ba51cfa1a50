/** The stale-while-revalidate cache over a singleflight group, as a protocol of concurrent calls. */
module CacheFlight {
  import opened Wrappers

  type Key = string
  type Value = string

  /** `fetcher` is the goroutine whose call of `fn` answered the value. */
  datatype Entry = Entry(value: Value, fetchedAt: int, fetcher: nat)

  /** Why a flight was started: by a caller without an entry, or to refresh an expired one. */
  datatype Kind = Miss | Refresh

  /** What a flight hands to everyone who waits for it; a refresh flight hands over nothing. */
  datatype Result = Fetched(e: Entry) | Error(err: string, fetcher: nat) | Nothing

  /** Where a goroutine stands in `Get`, or in the refresh that `Get` started. */
  datatype Pc =
    | AtLoad                          // before the outer look at the store
    | AtDo(kind: Kind)                // before joining or leading a flight
    | Waiting(kind: Kind)             // joined the flight of another
    | AtRecheck                       // leads a miss flight, before the inner look at the store
    | Fetching(kind: Kind)
    | Storing(kind: Kind, e: Entry)
    | Finishing(kind: Kind, r: Result)
    | Got(kind: Kind, r: Result)      // the flight is over
    | Returned(e: Entry)
    | Failed(err: string, fetcher: nat)
    | Panicked                        // cast of nothing to an entry
    | Refreshed

  /** `joined` is the kind of the flight that the goroutine joined, if it joined one. */
  datatype Thread = Thread(key: Key, pc: Pc, joined: Option<Kind>)

  datatype State = State(
    ttl: nat, now: int,
    store: map<Key, Entry>,
    flights: map<Key, nat>,           // singleflight: the leader of each key's flight
    threads: map<nat, Thread>)

  datatype Step =
    | Tick(d: nat)
    | Call(t: nat, key: Key)
    | Look(t: nat, refresher: nat)
    | Enter(t: nat)
    | LookAgain(t: nat)
    | FetchOk(t: nat, v: Value)
    | FetchErr(t: nat, err: string)
    | Store(t: nat)
    | Finish(t: nat)
    | Return(t: nat)
    | Invalidate(key: Key)
    | Clear

  function Init(ttl: nat, now: int): State {
    State(ttl, now, map[], map[], map[])
  }

  predicate Enabled(s: State, step: Step) {
    match step
    case Tick(_) => true
    case Call(t, _) => t !in s.threads
    case Look(t, u) => t in s.threads && s.threads[t].pc.AtLoad? && u !in s.threads
    case Enter(t) => t in s.threads && s.threads[t].pc.AtDo?
    case LookAgain(t) => t in s.threads && s.threads[t].pc.AtRecheck?
    case FetchOk(t, _) => t in s.threads && s.threads[t].pc.Fetching?
    case FetchErr(t, _) => t in s.threads && s.threads[t].pc.Fetching?
    case Store(t) => t in s.threads && s.threads[t].pc.Storing?
    case Finish(t) => t in s.threads && s.threads[t].pc.Finishing?
    case Return(t) => t in s.threads && s.threads[t].pc.Got?
    case Invalidate(_) => true
    case Clear => true
  }

  function KindOf(pc: Pc): Kind
    requires Leads(pc)
  {
    if pc.AtRecheck? then Miss else pc.kind
  }

  predicate Leads(pc: Pc) {
    pc.AtRecheck? || pc.Fetching? || pc.Storing? || pc.Finishing?
  }

  /** The leader and everyone who waits for its flight get the result. */
  function Deliver(threads: map<nat, Thread>, t: nat, key: Key, kind: Kind, r: Result): map<nat, Thread> {
    map u | u in threads ::
      if u == t then threads[u].(pc := Got(kind, r))
      else if threads[u].key == key && threads[u].pc.Waiting? then threads[u].(pc := Got(threads[u].pc.kind, r))
      else threads[u]
  }

  /** Steps that only move the goroutine itself. */
  predicate OwnMove(step: Step) {
    step.Look? || step.LookAgain? || step.FetchOk? || step.FetchErr? || step.Store? || step.Return?
  }

  /** Where such a step takes it. */
  function Moved(s: State, step: Step): Pc
    requires Enabled(s, step) && OwnMove(step)
  {
    var th := s.threads[step.t];
    match step
    case Look(_, _) => if th.key in s.store then Returned(s.store[th.key]) else AtDo(Miss)
    case LookAgain(_) => if th.key in s.store then Finishing(Miss, Fetched(s.store[th.key])) else Fetching(Miss)
    case FetchOk(t, v) => Storing(th.pc.kind, Entry(v, s.now, t))
    case FetchErr(t, err) => Finishing(th.pc.kind, if th.pc.kind.Miss? then Error(err, t) else Nothing)
    case Store(_) => Finishing(th.pc.kind, if th.pc.kind.Miss? then Fetched(th.pc.e) else Nothing)
    case Return(_) =>
      match th.pc
      case Got(Refresh, _) => Refreshed
      case Got(Miss, Fetched(e)) => Returned(e)
      case Got(Miss, Error(err, u)) => Failed(err, u)
      case _ => Panicked
  }

  /** A look that finds an expired entry starts a refresh. */
  predicate Expired(s: State, t: nat)
    requires t in s.threads
  {
    s.threads[t].key in s.store && s.now - s.store[s.threads[t].key].fetchedAt > s.ttl
  }

  function JoinedKind(s: State, leader: nat): Option<Kind> {
    if leader in s.threads && Leads(s.threads[leader].pc) then Some(KindOf(s.threads[leader].pc)) else None
  }

  function Threads(s: State, step: Step): map<nat, Thread>
    requires Enabled(s, step)
  {
    if step.Call? then s.threads[step.t := Thread(step.key, AtLoad, None)]
    else if step.Enter? then
      var th := s.threads[step.t];
      if th.key in s.flights then
        s.threads[step.t := Thread(th.key, Waiting(th.pc.kind), JoinedKind(s, s.flights[th.key]))]
      else s.threads[step.t := th.(pc := if th.pc.kind.Miss? then AtRecheck else Fetching(Refresh))]
    else if step.Finish? then
      Deliver(s.threads, step.t, s.threads[step.t].key, s.threads[step.t].pc.kind, s.threads[step.t].pc.r)
    else if OwnMove(step) then
      var moved := s.threads[step.t := s.threads[step.t].(pc := Moved(s, step))];
      if step.Look? && Expired(s, step.t) then moved[step.refresher := Thread(s.threads[step.t].key, AtDo(Refresh), None)]
      else moved
    else s.threads
  }

  function Flights(s: State, step: Step): map<Key, nat>
    requires Enabled(s, step)
  {
    match step
    case Enter(t) => if s.threads[t].key in s.flights then s.flights else s.flights[s.threads[t].key := t]
    case Finish(t) => s.flights - {s.threads[t].key}
    case _ => s.flights
  }

  function Stored(s: State, step: Step): map<Key, Entry>
    requires Enabled(s, step)
  {
    match step
    case Store(t) => s.store[s.threads[t].key := s.threads[t].pc.e]
    case Invalidate(key) => s.store - {key}
    case Clear => map[]
    case _ => s.store
  }

  function Apply(s: State, step: Step): State
    requires Enabled(s, step)
  {
    State(s.ttl, if step.Tick? then s.now + step.d else s.now, Stored(s, step), Flights(s, step), Threads(s, step))
  }

  ghost predicate IsRun(s: State, steps: seq<Step>)
    decreases |steps|
  {
    steps == [] || (Enabled(s, steps[0]) && IsRun(Apply(s, steps[0]), steps[1..]))
  }

  ghost function Run(s: State, steps: seq<Step>): State
    requires IsRun(s, steps)
    decreases |steps|
  {
    if steps == [] then s else Run(Apply(s, steps[0]), steps[1..])
  }

  // ---------------------------------------------------------------- flights

  /** Flights and their leaders belong together, and whoever waits has a flight to wait for. */
  ghost predicate Paired(flights: map<Key, nat>, threads: map<nat, Thread>) {
    && (forall k :: k in flights ==>
          flights[k] in threads && threads[flights[k]].key == k && Leads(threads[flights[k]].pc))
    && (forall t :: t in threads && Leads(threads[t].pc) ==>
          threads[t].key in flights && flights[threads[t].key] == t)
    && (forall t :: t in threads && threads[t].pc.Waiting? ==> threads[t].key in flights)
  }

  ghost predicate Exclusive(s: State) {
    Paired(s.flights, s.threads)
  }

  lemma PairedUpdate(flights: map<Key, nat>, threads: map<nat, Thread>, t: nat, pc: Pc)
    requires Paired(flights, threads) && t in threads && Leads(threads[t].pc) == Leads(pc) && !pc.Waiting?
    ensures Paired(flights, threads[t := threads[t].(pc := pc)])
  {
  }

  lemma PairedSpawn(flights: map<Key, nat>, threads: map<nat, Thread>, u: nat, th: Thread)
    requires Paired(flights, threads) && u !in threads && !Leads(th.pc) && !th.pc.Waiting?
    ensures Paired(flights, threads[u := th])
  {
  }

  /** A step of its own neither makes nor ends a leader, and keeps the kind of its flight. */
  lemma MovedLeads(s: State, step: Step)
    requires Enabled(s, step) && OwnMove(step)
    ensures var pc, pc' := s.threads[step.t].pc, Moved(s, step);
            Leads(pc') == Leads(pc) && !pc'.Waiting? && (Leads(pc) ==> KindOf(pc') == KindOf(pc))
  {
  }

  lemma ExclusiveMove(s: State, step: Step)
    requires Exclusive(s) && Enabled(s, step) && OwnMove(step)
    ensures Exclusive(Apply(s, step))
  {
    MovedLeads(s, step);
    PairedUpdate(s.flights, s.threads, step.t, Moved(s, step));
    var moved := s.threads[step.t := s.threads[step.t].(pc := Moved(s, step))];
    if step.Look? {
      PairedSpawn(s.flights, moved, step.refresher, Thread(s.threads[step.t].key, AtDo(Refresh), None));
    }
  }

  lemma ExclusiveEnter(s: State, t: nat)
    requires Exclusive(s) && Enabled(s, Enter(t))
    ensures Exclusive(Apply(s, Enter(t)))
  {
  }

  lemma ExclusiveFinish(s: State, t: nat)
    requires Exclusive(s) && Enabled(s, Finish(t))
    ensures Exclusive(Apply(s, Finish(t)))
  {
  }

  lemma ExclusiveStep(s: State, step: Step)
    requires Exclusive(s) && Enabled(s, step)
    ensures Exclusive(Apply(s, step))
  {
    if step.Enter? {
      ExclusiveEnter(s, step.t);
    } else if step.Finish? {
      ExclusiveFinish(s, step.t);
    } else if OwnMove(step) {
      ExclusiveMove(s, step);
    }
  }

  lemma {:induction false} ExclusiveRun(s: State, steps: seq<Step>)
    requires Exclusive(s) && IsRun(s, steps)
    ensures Exclusive(Run(s, steps))
    decreases |steps|
  {
    if steps != [] {
      ExclusiveStep(s, steps[0]);
      ExclusiveRun(Apply(s, steps[0]), steps[1..]);
    }
  }

  /** At any time at most one goroutine works on a key. */
  lemma OneLeader(s: State, t: nat, u: nat)
    requires Exclusive(s) && t in s.threads && u in s.threads
    requires Leads(s.threads[t].pc) && Leads(s.threads[u].pc) && s.threads[t].key == s.threads[u].key
    ensures t == u
  {
  }

  /** What the thread `u` is after a step, by how the step concerns it. */
  lemma ThreadAfter(s: State, step: Step, u: nat)
    requires Exclusive(s) && Enabled(s, step) && u in Apply(s, step).threads
    ensures var th := Apply(s, step).threads[u];
      if u !in s.threads then
        th.joined == None && (th.pc == AtLoad || (step.Look? && th.pc == AtDo(Refresh) && th.key in s.store))
      else
        && th.key == s.threads[u].key
        && (th == s.threads[u]
            || (OwnMove(step) && u == step.t && th == s.threads[u].(pc := Moved(s, step)))
            || (step.Enter? && u == step.t && s.threads[u].pc.AtDo?)
            || (step.Finish? && u == step.t && th == s.threads[u].(pc := Got(s.threads[u].pc.kind, s.threads[u].pc.r)))
            || (step.Finish? && u != step.t && s.threads[u].pc.Waiting? && s.threads[step.t].key == th.key
                && s.flights[th.key] == step.t
                && th == s.threads[u].(pc := Got(s.threads[u].pc.kind, s.threads[step.t].pc.r))))
  {
  }

  // ---------------------------------------------------------------- at most one fetch for a cold key

  predicate Evicts(step: Step) {
    step.Invalidate? || step.Clear?
  }

  /** A value for the key is stored or about to be. */
  ghost predicate Filled(s: State, k: Key) {
    k in s.store || (k in s.flights && s.flights[k] in s.threads
                     && s.threads[s.flights[k]].pc.Storing? && s.threads[s.flights[k]].pc.kind.Miss?)
  }

  /** A miss flight fetches only while nothing is stored, a refresh only while something is. */
  ghost predicate MatchesStore(s: State, t: nat)
    requires t in s.threads
  {
    var th := s.threads[t];
    match th.pc
    case Fetching(Miss) => th.key !in s.store
    case Storing(Miss, _) => th.key !in s.store
    case AtDo(Refresh) => th.key in s.store
    case Fetching(Refresh) => th.key in s.store
    case Storing(Refresh, _) => th.key in s.store
    case _ => true
  }

  ghost predicate Cold(s: State) {
    forall t :: t in s.threads ==> MatchesStore(s, t)
  }

  lemma StoredKeys(s: State, step: Step)
    requires Exclusive(s) && Enabled(s, step) && !Evicts(step)
    ensures forall k :: k in Apply(s, step).store <==>
              k in s.store || (step.Store? && k == s.threads[step.t].key)
  {
  }

  lemma ColdStep(s: State, step: Step)
    requires Exclusive(s) && Cold(s) && Enabled(s, step) && !Evicts(step)
    ensures Cold(Apply(s, step))
  {
    StoredKeys(s, step);
    forall u | u in Apply(s, step).threads ensures MatchesStore(Apply(s, step), u) {
      ColdThread(s, step, u);
    }
  }

  lemma ColdThread(s: State, step: Step, u: nat)
    requires Exclusive(s) && Cold(s) && Enabled(s, step) && !Evicts(step) && u in Apply(s, step).threads
    ensures MatchesStore(Apply(s, step), u)
  {
    ThreadAfter(s, step, u);
    if u in s.threads {
      assert MatchesStore(s, u);
    }
    if step.Store? && u in s.threads && u != step.t && Leads(s.threads[u].pc) && Leads(s.threads[step.t].pc) {
      assert s.threads[u].key != s.threads[step.t].key;
    }
  }

  predicate IsMissSuccess(s: State, step: Step, k: Key) {
    step.FetchOk? && step.t in s.threads && s.threads[step.t].pc == Fetching(Miss) && s.threads[step.t].key == k
  }

  /** The successful fetches of miss flights for a key, in a run. */
  function MissSuccesses(s: State, steps: seq<Step>, k: Key): nat
    requires IsRun(s, steps)
    decreases |steps|
  {
    if steps == [] then 0
    else (if IsMissSuccess(s, steps[0], k) then 1 else 0) + MissSuccesses(Apply(s, steps[0]), steps[1..], k)
  }

  lemma FilledStep(s: State, step: Step, k: Key)
    requires Exclusive(s) && Cold(s) && Enabled(s, step) && !Evicts(step)
    ensures Filled(s, k) ==> Filled(Apply(s, step), k) && !IsMissSuccess(s, step, k)
    ensures IsMissSuccess(s, step, k) ==> Filled(Apply(s, step), k)
  {
    StoredKeys(s, step);
    if k in s.flights && s.flights[k] in Apply(s, step).threads {
      ThreadAfter(s, step, s.flights[k]);
    }
    if IsMissSuccess(s, step, k) {
      assert MatchesStore(s, step.t);
    }
  }

  /** Without evictions any number of concurrent calls makes at most one successful fetch for a key
      that has no value, and none for a key that has one. */
  lemma {:induction false} StampedeBound(s: State, steps: seq<Step>, k: Key)
    requires Exclusive(s) && Cold(s) && IsRun(s, steps)
    requires forall i :: 0 <= i < |steps| ==> !Evicts(steps[i])
    ensures MissSuccesses(s, steps, k) <= if Filled(s, k) then 0 else 1
    decreases |steps|
  {
    if steps != [] {
      ExclusiveStep(s, steps[0]);
      ColdStep(s, steps[0]);
      FilledStep(s, steps[0], k);
      StampedeBound(Apply(s, steps[0]), steps[1..], k);
    }
  }

  // ---------------------------------------------------------------- provenance

  /** What `fn` answered in a run: values it produced, and errors. */
  function Produced(s: State, steps: seq<Step>): set<(Key, Value)>
    requires IsRun(s, steps)
    decreases |steps|
  {
    if steps == [] then {} else ProducedBy(s, steps[0]) + Produced(Apply(s, steps[0]), steps[1..])
  }

  function ProducedBy(s: State, step: Step): set<(Key, Value)>
    requires Enabled(s, step)
  {
    if step.FetchOk? then {(s.threads[step.t].key, step.v)} else {}
  }

  function Raised(s: State, steps: seq<Step>): set<(Key, string)>
    requires IsRun(s, steps)
    decreases |steps|
  {
    if steps == [] then {} else RaisedBy(s, steps[0]) + Raised(Apply(s, steps[0]), steps[1..])
  }

  function RaisedBy(s: State, step: Step): set<(Key, string)>
    requires Enabled(s, step)
  {
    if step.FetchErr? then {(s.threads[step.t].key, step.err)} else {}
  }

  /** A goroutine's value or error comes from the given answers for its key. */
  ghost predicate From(th: Thread, values: set<(Key, Value)>, errors: set<(Key, string)>) {
    match th.pc
    case Storing(_, e) => (th.key, e.value) in values
    case Finishing(_, Fetched(e)) => (th.key, e.value) in values
    case Finishing(_, Error(err, _)) => (th.key, err) in errors
    case Got(_, Fetched(e)) => (th.key, e.value) in values
    case Got(_, Error(err, _)) => (th.key, err) in errors
    case Returned(e) => (th.key, e.value) in values
    case Failed(err, _) => (th.key, err) in errors
    case _ => true
  }

  ghost predicate Sourced(s: State, values: set<(Key, Value)>, errors: set<(Key, string)>) {
    && (forall k :: k in s.store ==> (k, s.store[k].value) in values)
    && (forall t :: t in s.threads ==> From(s.threads[t], values, errors))
  }

  lemma SourcedStep(s: State, step: Step, values: set<(Key, Value)>, errors: set<(Key, string)>)
    requires Exclusive(s) && Enabled(s, step) && Sourced(s, values, errors)
    ensures Sourced(Apply(s, step), values + ProducedBy(s, step), errors + RaisedBy(s, step))
  {
    var s' := Apply(s, step);
    var vs, es := values + ProducedBy(s, step), errors + RaisedBy(s, step);
    forall u | u in s'.threads ensures From(s'.threads[u], vs, es) {
      SourcedThread(s, step, u, values, errors);
    }
    forall k | k in s'.store ensures (k, s'.store[k].value) in vs {
      if step.Store? {
        assert From(s.threads[step.t], values, errors);
      }
    }
  }

  lemma SourcedThread(s: State, step: Step, u: nat, values: set<(Key, Value)>, errors: set<(Key, string)>)
    requires Exclusive(s) && Enabled(s, step) && Sourced(s, values, errors) && u in Apply(s, step).threads
    ensures From(Apply(s, step).threads[u], values + ProducedBy(s, step), errors + RaisedBy(s, step))
  {
    ThreadAfter(s, step, u);
    if u in s.threads {
      assert From(s.threads[u], values, errors);
      if step.Finish? {
        assert From(s.threads[step.t], values, errors);
      }
    }
  }

  /** In every run, evictions included, a caller gets an error or a value that `fn` answered for its
      own key, and only values are ever stored. */
  lemma {:induction false} Provenance(s: State, steps: seq<Step>, values: set<(Key, Value)>, errors: set<(Key, string)>)
    requires Exclusive(s) && IsRun(s, steps) && Sourced(s, values, errors)
    ensures Sourced(Run(s, steps), values + Produced(s, steps), errors + Raised(s, steps))
    decreases |steps|
  {
    if steps == [] {
      assert values + {} == values && errors + {} == errors;
    } else {
      var s1, vs, es := Apply(s, steps[0]), ProducedBy(s, steps[0]), RaisedBy(s, steps[0]);
      ExclusiveStep(s, steps[0]);
      SourcedStep(s, steps[0], values, errors);
      Provenance(s1, steps[1..], values + vs, errors + es);
      assert values + vs + Produced(s1, steps[1..]) == values + Produced(s, steps);
      assert errors + es + Raised(s1, steps[1..]) == errors + Raised(s, steps);
    }
  }

  // ---------------------------------------------------------------- ages

  ghost predicate Timed(s: State) {
    && (forall k :: k in s.store ==> s.store[k].fetchedAt <= s.now)
    && (forall t :: t in s.threads && s.threads[t].pc.Storing? ==> TimedThread(s, s.threads[t]))
  }

  ghost predicate TimedThread(s: State, th: Thread)
    requires th.pc.Storing?
  {
    th.pc.e.fetchedAt <= s.now && (th.key in s.store ==> s.store[th.key].fetchedAt <= th.pc.e.fetchedAt)
  }

  /** An entry is never replaced by an older one. */
  lemma TimedStep(s: State, step: Step)
    requires Exclusive(s) && Enabled(s, step) && Timed(s)
    ensures Timed(Apply(s, step))
    ensures forall k :: k in s.store && k in Apply(s, step).store ==>
              s.store[k].fetchedAt <= Apply(s, step).store[k].fetchedAt
  {
    var s' := Apply(s, step);
    forall u | u in s'.threads && s'.threads[u].pc.Storing? ensures TimedThread(s', s'.threads[u]) {
      ThreadAfter(s, step, u);
      if step.Store? && u in s.threads {
        assert Leads(s.threads[u].pc) && Leads(s.threads[step.t].pc);
      }
    }
  }

  lemma {:induction false} AgesNeverDecrease(s: State, steps: seq<Step>)
    requires Exclusive(s) && Timed(s) && IsRun(s, steps)
    requires forall i :: 0 <= i < |steps| ==> !Evicts(steps[i])
    ensures forall k :: k in s.store ==>
              k in Run(s, steps).store && s.store[k].fetchedAt <= Run(s, steps).store[k].fetchedAt
    decreases |steps|
  {
    if steps != [] {
      ExclusiveStep(s, steps[0]);
      TimedStep(s, steps[0]);
      StoredKeys(s, steps[0]);
      AgesNeverDecrease(Apply(s, steps[0]), steps[1..]);
    }
  }

  // ---------------------------------------------------------------- looks and refreshes

  /** A look answers with the stored entry, whatever its age, and starts a refresh if and only if the entry
      is older than the ttl; with nothing stored the caller goes on to a flight. Nobody else moves. */
  lemma LookRefreshesIff(s: State, t: nat, u: nat)
    requires Enabled(s, Look(t, u)) && u != t
    ensures var k, s' := s.threads[t].key, Apply(s, Look(t, u));
      && (u in s'.threads <==> k in s.store && s.now - s.store[k].fetchedAt > s.ttl)
      && (u in s'.threads ==> s'.threads[u] == Thread(k, AtDo(Refresh), None))
      && At(s'.threads, t) == Some(Thread(k, if k in s.store then Returned(s.store[k]) else AtDo(Miss), s.threads[t].joined))
      && (forall v :: v != t && v != u ==> At(s'.threads, v) == At(s.threads, v))
      && s'.store == s.store && s'.flights == s.flights
  {
  }

  /** An eviction takes away the entry of its key, or all of them: the next look misses. */
  lemma EvictionForgets(s: State, k: Key, j: Key)
    ensures At(Apply(s, Invalidate(k)).store, j) == if j == k then None else At(s.store, j)
    ensures At(Apply(s, Clear).store, j) == None
  {
  }

  /** The goroutine calls `fn` for the key and has its answer. */
  predicate Fetches(s: State, step: Step, k: Key) {
    (step.FetchOk? || step.FetchErr?) && step.t in s.threads && s.threads[step.t].key == k
  }

  ghost predicate EverFetches(s: State, steps: seq<Step>, k: Key)
    requires IsRun(s, steps)
    decreases |steps|
  {
    steps != [] && (Fetches(s, steps[0], k) || EverFetches(Apply(s, steps[0]), steps[1..], k))
  }

  /** Nobody is fetching the key or about to refresh it. */
  ghost predicate Idle(s: State, k: Key) {
    forall t :: t in s.threads && s.threads[t].key == k ==> !s.threads[t].pc.Fetching? && s.threads[t].pc != AtDo(Refresh)
  }

  /** What is stored for the key, or about to be, was fetched at `since` or later. */
  ghost predicate Since(s: State, k: Key, since: int) {
    && k in s.store && since <= s.store[k].fetchedAt
    && (forall t :: t in s.threads && s.threads[t].key == k && s.threads[t].pc.Storing? ==> since <= s.threads[t].pc.e.fetchedAt)
  }

  lemma IdleStep(s: State, step: Step, k: Key, since: int)
    requires Exclusive(s) && Enabled(s, step) && !Evicts(step)
    requires Idle(s, k) && Since(s, k, since) && s.now - since <= s.ttl
    ensures !Fetches(s, step, k) && Idle(Apply(s, step), k) && Since(Apply(s, step), k, since)
  {
    var s' := Apply(s, step);
    StoredKeys(s, step);
    forall u | u in s'.threads && s'.threads[u].key == k
      ensures !s'.threads[u].pc.Fetching? && s'.threads[u].pc != AtDo(Refresh)
      ensures s'.threads[u].pc.Storing? ==> since <= s'.threads[u].pc.e.fetchedAt
    {
      IdleThread(s, step, k, since, u);
    }
  }

  lemma IdleThread(s: State, step: Step, k: Key, since: int, u: nat)
    requires Exclusive(s) && Enabled(s, step) && !Evicts(step)
    requires Idle(s, k) && Since(s, k, since) && s.now - since <= s.ttl
    requires u in Apply(s, step).threads && Apply(s, step).threads[u].key == k
    ensures var pc := Apply(s, step).threads[u].pc;
            !pc.Fetching? && pc != AtDo(Refresh) && (pc.Storing? ==> since <= pc.e.fetchedAt)
  {
    if step.Look? && u !in s.threads {
      LookRefreshesIff(s, step.t, step.refresher);
    } else {
      ThreadAfter(s, step, u);
    }
  }

  lemma {:induction false} TimeGoesOn(s: State, steps: seq<Step>)
    requires IsRun(s, steps)
    ensures s.now <= Run(s, steps).now && s.ttl == Run(s, steps).ttl
    decreases |steps|
  {
    if steps != [] {
      TimeGoesOn(Apply(s, steps[0]), steps[1..]);
    }
  }

  lemma {:induction false} IdleRun(s: State, steps: seq<Step>, k: Key, since: int)
    requires Exclusive(s) && IsRun(s, steps) && forall i :: 0 <= i < |steps| ==> !Evicts(steps[i])
    requires Idle(s, k) && Since(s, k, since) && Run(s, steps).now - since <= s.ttl
    ensures !EverFetches(s, steps, k)
    decreases |steps|
  {
    if steps != [] {
      TimeGoesOn(s, steps);
      IdleStep(s, steps[0], k, since);
      ExclusiveStep(s, steps[0]);
      IdleRun(Apply(s, steps[0]), steps[1..], k, since);
    }
  }

  /** A fresh entry is never fetched again: without evictions, and with nobody fetching the key or about to
      refresh it, no call of `fn` for it ends as long as the clock stays within the ttl of the entry,
      however many callers there are. */
  lemma NoFetchWhileFresh(s: State, steps: seq<Step>, k: Key)
    requires Exclusive(s) && Timed(s) && IsRun(s, steps) && forall i :: 0 <= i < |steps| ==> !Evicts(steps[i])
    requires Idle(s, k) && k in s.store && Run(s, steps).now - s.store[k].fetchedAt <= s.ttl
    ensures !EverFetches(s, steps, k)
  {
    forall t | t in s.threads && s.threads[t].key == k && s.threads[t].pc.Storing?
      ensures s.store[k].fetchedAt <= s.threads[t].pc.e.fetchedAt
    {
      assert TimedThread(s, s.threads[t]);
    }
    IdleRun(s, steps, k, s.store[k].fetchedAt);
  }

  /** The goroutine was started to refresh an entry. */
  predicate Refreshes(pc: Pc) {
    pc == AtDo(Refresh) || pc == Waiting(Refresh) || pc == Fetching(Refresh)
  }

  /** Some look of the run found an entry of the key that was older than the ttl, and started `t`. */
  ghost predicate Caused(s: State, steps: seq<Step>, t: nat, k: Key)
    requires IsRun(s, steps)
    decreases |steps|
  {
    steps != []
    && ((steps[0].Look? && steps[0].refresher == t && s.threads[steps[0].t].key == k
         && k in s.store && s.now - s.store[k].fetchedAt > s.ttl)
        || Caused(Apply(s, steps[0]), steps[1..], t, k))
  }

  /** A goroutine that refreshes did so before the step, or the step is the look that started it. */
  lemma RefresherBefore(s: State, step: Step, t: nat)
    requires Exclusive(s) && Enabled(s, step) && t in Apply(s, step).threads && Refreshes(Apply(s, step).threads[t].pc)
    ensures var k := Apply(s, step).threads[t].key;
      || (t in s.threads && s.threads[t].key == k && Refreshes(s.threads[t].pc))
      || (step.Look? && step.refresher == t && s.threads[step.t].key == k
          && k in s.store && s.now - s.store[k].fetchedAt > s.ttl)
  {
    if t in s.threads {
      ThreadAfter(s, step, t);
    } else if step.Look? {
      LookRefreshesIff(s, step.t, step.refresher);
    }
  }

  lemma {:induction false} RefreshersCaused(s: State, steps: seq<Step>, t: nat)
    requires Exclusive(s) && IsRun(s, steps) && t in Run(s, steps).threads && Refreshes(Run(s, steps).threads[t].pc)
    ensures var k := Run(s, steps).threads[t].key;
            (t in s.threads && s.threads[t].key == k && Refreshes(s.threads[t].pc)) || Caused(s, steps, t, k)
    decreases |steps|
  {
    if steps != [] {
      ExclusiveStep(s, steps[0]);
      RefreshersCaused(Apply(s, steps[0]), steps[1..], t);
      if t in Apply(s, steps[0]).threads && Refreshes(Apply(s, steps[0]).threads[t].pc) {
        RefresherBefore(s, steps[0], t);
      }
    }
  }

  /** Every refresh fetch of any run comes from a look, earlier in the run, that found an entry of its key
      older than the ttl. */
  lemma RefreshIsCaused(ttl: nat, now: int, steps: seq<Step>, step: Step)
    requires IsRun(Init(ttl, now), steps) && Enabled(Run(Init(ttl, now), steps), step)
    requires (step.FetchOk? || step.FetchErr?) && Run(Init(ttl, now), steps).threads[step.t].pc == Fetching(Refresh)
    ensures Caused(Init(ttl, now), steps, step.t, Run(Init(ttl, now), steps).threads[step.t].key)
  {
    RefreshersCaused(Init(ttl, now), steps, step.t);
  }

  /** The goroutine holds the entry until it stores it, and never stores twice. */
  ghost predicate HoldsOrDone(s: State, t: nat, e: Entry) {
    t in s.threads &&
    var pc := s.threads[t].pc;
    (pc.Storing? && pc.e == e) || pc.Finishing? || pc.Got? || pc.Returned? || pc.Failed? || pc.Panicked? || pc.Refreshed?
  }

  lemma {:induction false} HoldsUntilStored(s: State, steps: seq<Step>, t: nat, e: Entry)
    requires Exclusive(s) && IsRun(s, steps) && HoldsOrDone(s, t, e)
    ensures HoldsOrDone(Run(s, steps), t, e) && Run(s, steps).threads[t].key == s.threads[t].key
    decreases |steps|
  {
    if steps != [] {
      assert t in Apply(s, steps[0]).threads;
      ThreadAfter(s, steps[0], t);
      ExclusiveStep(s, steps[0]);
      HoldsUntilStored(Apply(s, steps[0]), steps[1..], t, e);
    }
  }

  /** What a goroutine fetches, for a miss or a refresh, is what it stores: the value, under its key, with
      the instant at which the call of `fn` ended, whatever happens in between. */
  lemma FetchIsStored(s: State, t: nat, v: Value, between: seq<Step>)
    requires Exclusive(s) && Enabled(s, FetchOk(t, v)) && IsRun(Apply(s, FetchOk(t, v)), between)
    requires Enabled(Run(Apply(s, FetchOk(t, v)), between), Store(t))
    ensures At(Apply(Run(Apply(s, FetchOk(t, v)), between), Store(t)).store, s.threads[t].key) == Some(Entry(v, s.now, t))
  {
    ExclusiveStep(s, FetchOk(t, v));
    HoldsUntilStored(Apply(s, FetchOk(t, v)), between, t, Entry(v, s.now, t));
  }

  // ---------------------------------------------------------------- the cast

  /** The result a goroutine has, or is owed, is nothing exactly if it comes from a refresh flight. */
  ghost predicate CastAt(s: State, t: nat)
    requires t in s.threads
  {
    var th := s.threads[t];
    match th.pc
    case Waiting(_) => th.key in s.flights && th.joined == JoinedKind(s, s.flights[th.key])
    case Finishing(kind, r) => th.joined == None && (r == Nothing <==> kind == Refresh)
    case Got(kind, r) => r == Nothing <==> th.joined == Some(Refresh) || (th.joined == None && kind == Refresh)
    case Returned(_) => th.joined != Some(Refresh)
    case Failed(_, _) => th.joined != Some(Refresh)
    case Panicked => th.joined == Some(Refresh)
    case Refreshed => true
    case _ => th.joined == None
  }

  ghost predicate Casts(s: State) {
    forall t :: t in s.threads ==> CastAt(s, t)
  }

  lemma JoinedStays(s: State, step: Step, k: Key)
    requires Exclusive(s) && Enabled(s, step) && k in s.flights && k in Apply(s, step).flights
    ensures Apply(s, step).flights[k] == s.flights[k]
    ensures JoinedKind(Apply(s, step), s.flights[k]) == JoinedKind(s, s.flights[k]) != None
  {
  }

  lemma CastsStep(s: State, step: Step)
    requires Exclusive(s) && Casts(s) && Enabled(s, step)
    ensures Casts(Apply(s, step))
  {
    forall u | u in Apply(s, step).threads ensures CastAt(Apply(s, step), u) {
      CastsThread(s, step, u);
    }
  }

  /** Waiting goroutines stay with the flight they joined. */
  lemma CastsWaiting(s: State, step: Step, u: nat)
    requires Exclusive(s) && Casts(s) && Enabled(s, step)
    requires u in Apply(s, step).threads && Apply(s, step).threads[u].pc.Waiting?
    ensures CastAt(Apply(s, step), u)
  {
    var s' := Apply(s, step);
    ThreadAfter(s, step, u);
    ExclusiveStep(s, step);
    assert CastAt(s, u);
    JoinedStays(s, step, s.threads[u].key);
  }

  lemma CastsThread(s: State, step: Step, u: nat)
    requires Exclusive(s) && Casts(s) && Enabled(s, step) && u in Apply(s, step).threads
    ensures CastAt(Apply(s, step), u)
  {
    if Apply(s, step).threads[u].pc.Waiting? {
      CastsWaiting(s, step, u);
    } else {
      ThreadAfter(s, step, u);
      if u in s.threads {
        assert CastAt(s, u);
        if step.Finish? {
          assert CastAt(s, step.t);
        }
      }
    }
  }

  lemma {:induction false} CastsRun(s: State, steps: seq<Step>)
    requires Exclusive(s) && Casts(s) && IsRun(s, steps)
    ensures Casts(Run(s, steps))
    decreases |steps|
  {
    if steps != [] {
      ExclusiveStep(s, steps[0]);
      CastsStep(s, steps[0]);
      CastsRun(Apply(s, steps[0]), steps[1..]);
    }
  }

  /** In every run, evictions included, the cast at the end of a call fails exactly for the callers
      that joined a refresh flight. */
  lemma CastFailsIff(ttl: nat, now: int, steps: seq<Step>, t: nat)
    requires IsRun(Init(ttl, now), steps) && t in Run(Init(ttl, now), steps).threads
    requires var pc := Run(Init(ttl, now), steps).threads[t].pc; pc.Returned? || pc.Failed? || pc.Panicked?
    ensures var th := Run(Init(ttl, now), steps).threads[t]; th.pc.Panicked? <==> th.joined == Some(Refresh)
  {
    CastsRun(Init(ttl, now), steps);
    assert CastAt(Run(Init(ttl, now), steps), t);
  }

  // ---------------------------------------------------------------- a failing cast without evictions

  lemma {:induction false} RunMore(s: State, steps: seq<Step>, step: Step)
    requires IsRun(s, steps) && Enabled(Run(s, steps), step)
    ensures IsRun(s, steps + [step]) && Run(s, steps + [step]) == Apply(Run(s, steps), step)
    decreases |steps|
  {
    if steps == [] {
      assert [] + [step] == [step];
    } else {
      assert (steps + [step])[1..] == steps[1..] + [step];
      RunMore(Apply(s, steps[0]), steps[1..], step);
    }
  }

  /** `f` is reached from `s` without evictions. */
  ghost predicate Reaches(s: State, f: State) {
    exists steps :: IsRun(s, steps) && Run(s, steps) == f && forall i :: 0 <= i < |steps| ==> !Evicts(steps[i])
  }

  lemma ReachesMore(s: State, f: State, step: Step)
    requires Reaches(s, f) && Enabled(f, step) && !Evicts(step)
    ensures Reaches(s, Apply(f, step))
  {
    var steps :| IsRun(s, steps) && Run(s, steps) == f && forall i :: 0 <= i < |steps| ==> !Evicts(steps[i]);
    RunMore(s, steps, step);
    assert Run(s, steps + [step]) == Apply(f, step);
  }

  /** A miss caller that has looked and found nothing. */
  const LATE := Thread("k", AtDo(Miss), None)

  /** Two callers have looked and found nothing. */
  lemma BothLook(ttl: nat)
    ensures Reaches(Init(ttl, 0), State(ttl, 0, map[], map[], map[0 := LATE, 1 := LATE]))
  {
    var s := Init(ttl, 0);
    assert IsRun(s, []) && Run(s, []) == s;
    OneLooks(ttl, map[], 0);
    OneLooks(ttl, map[0 := LATE], 1);
  }

  lemma OneLooks(ttl: nat, others: map<nat, Thread>, t: nat)
    requires Reaches(Init(ttl, 0), State(ttl, 0, map[], map[], others)) && t !in others && 9 !in others && t != 9
    ensures Reaches(Init(ttl, 0), State(ttl, 0, map[], map[], others[t := LATE]))
  {
    var s0 := State(ttl, 0, map[], map[], others);
    ReachesMore(Init(ttl, 0), s0, Call(t, "k"));
    var s1 := s0.(threads := others[t := Thread("k", AtLoad, None)]);
    assert Apply(s0, Call(t, "k")) == s1;
    ReachesMore(Init(ttl, 0), s1, Look(t, 9));
    assert Apply(s1, Look(t, 9)).threads == others[t := LATE];
  }

  /** Caller 1 leads a flight and fetches; caller 0 has not gone on. */
  lemma OneFetches(ttl: nat)
    ensures Reaches(Init(ttl, 0), State(ttl, 0, map[], map["k" := 1], map[0 := LATE, 1 := Thread("k", Fetching(Miss), None)]))
  {
    BothLook(ttl);
    var s0 := State(ttl, 0, map[], map[], map[0 := LATE, 1 := LATE]);
    ReachesMore(Init(ttl, 0), s0, Enter(1));
    var s1 := State(ttl, 0, map[], map["k" := 1], map[0 := LATE, 1 := Thread("k", AtRecheck, None)]);
    assert Apply(s0, Enter(1)) == s1;
    ReachesMore(Init(ttl, 0), s1, LookAgain(1));
    assert Apply(s1, LookAgain(1)).threads == map[0 := LATE, 1 := Thread("k", Fetching(Miss), None)];
  }

  lemma OneStores(ttl: nat)
    ensures var e := Entry("v", 0, 1);
            Reaches(Init(ttl, 0),
                    State(ttl, 0, map["k" := e], map["k" := 1], map[0 := LATE, 1 := Thread("k", Finishing(Miss, Fetched(e)), None)]))
  {
    var e := Entry("v", 0, 1);
    OneFetches(ttl);
    var s0 := State(ttl, 0, map[], map["k" := 1], map[0 := LATE, 1 := Thread("k", Fetching(Miss), None)]);
    ReachesMore(Init(ttl, 0), s0, FetchOk(1, "v"));
    var s1 := s0.(threads := map[0 := LATE, 1 := Thread("k", Storing(Miss, e), None)]);
    assert Apply(s0, FetchOk(1, "v")) == s1;
    ReachesMore(Init(ttl, 0), s1, Store(1));
    assert Apply(s1, Store(1)).threads == map[0 := LATE, 1 := Thread("k", Finishing(Miss, Fetched(e)), None)];
    assert Apply(s1, Store(1)).store == map["k" := e];
  }

  /** Caller 1 has finished, and its entry has expired. */
  lemma EntryExpires(ttl: nat)
    ensures var e := Entry("v", 0, 1);
            Reaches(Init(ttl, 0),
                    State(ttl, ttl + 1, map["k" := e], map[], map[0 := LATE, 1 := Thread("k", Got(Miss, Fetched(e)), None)]))
  {
    var e := Entry("v", 0, 1);
    OneStores(ttl);
    var s0 := State(ttl, 0, map["k" := e], map["k" := 1], map[0 := LATE, 1 := Thread("k", Finishing(Miss, Fetched(e)), None)]);
    ReachesMore(Init(ttl, 0), s0, Finish(1));
    var s1 := State(ttl, 0, map["k" := e], map[], map[0 := LATE, 1 := Thread("k", Got(Miss, Fetched(e)), None)]);
    assert Apply(s0, Finish(1)).threads == s1.threads;
    assert Apply(s0, Finish(1)).flights == map[];
    TimePasses(s1, ttl + 1);
  }

  lemma TimePasses(f: State, d: nat)
    requires Reaches(Init(f.ttl, 0), f)
    ensures Reaches(Init(f.ttl, 0), f.(now := f.now + d))
  {
    ReachesMore(Init(f.ttl, 0), f, Tick(d));
  }

  /** Caller 2 finds the expired entry and starts a refresh. */
  lemma RefreshStarts(ttl: nat) returns (f: State)
    ensures Reaches(Init(ttl, 0), f) && f.flights == map[]
    ensures 0 in f.threads && f.threads[0] == LATE && 3 in f.threads && f.threads[3] == Thread("k", AtDo(Refresh), None)
  {
    var e := Entry("v", 0, 1);
    EntryExpires(ttl);
    var s0 := State(ttl, ttl + 1, map["k" := e], map[], map[0 := LATE, 1 := Thread("k", Got(Miss, Fetched(e)), None)]);
    ReachesMore(Init(ttl, 0), s0, Call(2, "k"));
    var s1 := Apply(s0, Call(2, "k"));
    ReachesMore(Init(ttl, 0), s1, Look(2, 3));
    f := Apply(s1, Look(2, 3));
  }

  /** The refresh flies, and caller 0 joins it. */
  lemma LateCallerJoins(ttl: nat) returns (f: State)
    ensures Reaches(Init(ttl, 0), f) && f.flights == map["k" := 3]
    ensures 3 in f.threads && f.threads[3] == Thread("k", Fetching(Refresh), None)
    ensures 0 in f.threads && f.threads[0] == Thread("k", Waiting(Miss), Some(Refresh))
  {
    var s0 := RefreshStarts(ttl);
    ReachesMore(Init(ttl, 0), s0, Enter(3));
    var s1 := Apply(s0, Enter(3));
    assert s1.threads[3] == Thread("k", Fetching(Refresh), None) && s1.threads[0] == LATE;
    ReachesMore(Init(ttl, 0), s1, Enter(0));
    f := Apply(s1, Enter(0));
  }

  /** Without any eviction a caller can panic: it looks before the entry is stored and reaches the
      flight group when a refresh of the expired entry is under way. */
  lemma LateCallerPanics(ttl: nat)
    ensures exists f :: Reaches(Init(ttl, 0), f) && 0 in f.threads && f.threads[0].pc == Panicked
  {
    var s := Init(ttl, 0);
    var s0 := LateCallerJoins(ttl);
    ReachesMore(s, s0, FetchErr(3, "down"));
    var s1 := Apply(s0, FetchErr(3, "down"));
    ReachesMore(s, s1, Finish(3));
    var s2 := Apply(s1, Finish(3));
    assert s2.threads[0].pc == Got(Miss, Nothing);
    ReachesMore(s, s2, Return(0));
    var f := Apply(s2, Return(0));
    assert f.threads[0].pc == Panicked;
  }
}
