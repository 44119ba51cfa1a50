/** Overlapping calls of `IsVerified`, step by step, over the concurrent cache: which check answers a call,
    and when the calls after a finished verification are answered by checks that began after it. */
module VerifiedCalls {
  import opened Wrappers
  import CacheFlight

  /** The one key under which a session's verdict is cached. */
  const KEY := "iv"

  /** A check, named by who runs it: a call runs at most one itself, a goroutine of the cache at most one. */
  datatype Check = OfCall(c: nat) | OfGoroutine(t: nat)

  /** Where a call of `IsVerified` stands. With the flag up it goes through the cache, in goroutine `t`. */
  datatype Caller =
    | AtFlag
    | AtCheck                             // the flag was down
    | Checking
    | AtStore(v: bool)
    | InCache(t: nat)
    | Answered(v: bool, check: Check)     // `check` is the one that found the verdict

  datatype World = World(seen: bool, cache: CacheFlight.State, callers: map<nat, Caller>)

  /** An error counts as false, as it does for the caller. A goroutine of the cache begins its check when
      it starts to fetch and ends it with what it fetched. */
  datatype Move =
    | Ask(c: nat)
    | LoadFlag(c: nat, t: nat)
    | BeginCheck(c: nat)
    | EndCheck(c: nat, v: bool)
    | StoreFlag(c: nat)
    | Take(c: nat)                        // the answer from the cache
    | Cache(step: CacheFlight.Step)       // whatever the cache's goroutines do, invalidations included
    | Lower                               // the end of a verification, after it has invalidated the cache

  function Start(ttl: nat, now: int): World {
    World(false, CacheFlight.Init(ttl, now), map[])
  }

  predicate IsTrue(v: CacheFlight.Value) {
    v == "true"
  }

  predicate Enabled(w: World, m: Move) {
    match m
    case Ask(c) => c !in w.callers
    case LoadFlag(c, t) => c in w.callers && w.callers[c].AtFlag? && t !in w.cache.threads
    case BeginCheck(c) => c in w.callers && w.callers[c].AtCheck?
    case EndCheck(c, _) => c in w.callers && w.callers[c].Checking?
    case StoreFlag(c) => c in w.callers && w.callers[c].AtStore?
    case Take(c) =>
      && c in w.callers && w.callers[c].InCache? && w.callers[c].t in w.cache.threads
      && (w.cache.threads[w.callers[c].t].pc.Returned? || w.cache.threads[w.callers[c].t].pc.Failed?)
    case Cache(step) => !step.Call? && CacheFlight.Enabled(w.cache, step)
    case Lower => true
  }

  /** A verdict that the cache passes around, and the goroutine whose check found it. */
  datatype Verdict = Verdict(v: bool, runner: nat)

  function VerdictOf(e: CacheFlight.Entry): Verdict {
    Verdict(IsTrue(e.value), e.fetcher)
  }

  /** The verdict that a goroutine of the cache holds. */
  function Carried(pc: CacheFlight.Pc): Option<Verdict> {
    match pc
    case Storing(_, e) => Some(VerdictOf(e))
    case Finishing(_, Fetched(e)) => Some(VerdictOf(e))
    case Finishing(_, Error(_, u)) => Some(Verdict(false, u))
    case Got(_, Fetched(e)) => Some(VerdictOf(e))
    case Got(_, Error(_, u)) => Some(Verdict(false, u))
    case Returned(e) => Some(VerdictOf(e))
    case Failed(_, u) => Some(Verdict(false, u))
    case _ => None
  }

  function After(w: World, m: Move): World
    requires Enabled(w, m)
  {
    match m
    case Ask(c) => w.(callers := w.callers[c := AtFlag])
    case LoadFlag(c, t) =>
      if w.seen then w.(callers := w.callers[c := InCache(t)], cache := CacheFlight.Apply(w.cache, CacheFlight.Call(t, KEY)))
      else w.(callers := w.callers[c := AtCheck])
    case BeginCheck(c) => w.(callers := w.callers[c := Checking])
    case EndCheck(c, v) => w.(callers := w.callers[c := AtStore(v)])
    case StoreFlag(c) => w.(seen := w.callers[c].v, callers := w.callers[c := Answered(w.callers[c].v, OfCall(c))])
    case Take(c) =>
      var d := Carried(w.cache.threads[w.callers[c].t].pc).value;
      w.(callers := w.callers[c := Answered(d.v, OfGoroutine(d.runner))])
    case Cache(step) => w.(cache := CacheFlight.Apply(w.cache, step))
    case Lower => w.(seen := false)
  }

  /** The check that ends in a move, with its verdict. */
  function EndedBy(m: Move): set<(Check, bool)> {
    match m
    case EndCheck(c, v) => {(OfCall(c), v)}
    case Cache(FetchOk(t, v)) => {(OfGoroutine(t), IsTrue(v))}
    case Cache(FetchErr(t, _)) => {(OfGoroutine(t), false)}
    case _ => {}
  }

  ghost predicate IsRun(w: World, moves: seq<Move>)
    decreases |moves|
  {
    moves == [] || (Enabled(w, moves[0]) && IsRun(After(w, moves[0]), moves[1..]))
  }

  ghost function Run(w: World, moves: seq<Move>): World
    requires IsRun(w, moves)
    decreases |moves|
  {
    if moves == [] then w else Run(After(w, moves[0]), moves[1..])
  }

  function Ended(moves: seq<Move>): set<(Check, bool)> {
    if moves == [] then {} else EndedBy(moves[0]) + Ended(moves[1..])
  }

  // ---------------------------------------------------------------- what is fresh

  predicate BeforeCheck(pc: CacheFlight.Pc) {
    pc.AtLoad? || pc.AtDo? || pc.AtRecheck? || pc.Waiting?
  }

  /** In `w` the check has begun, or its runner is past the point where it would begin one. */
  predicate Begun(w: World, check: Check) {
    match check
    case OfCall(c) => c in w.callers && !w.callers[c].AtFlag? && !w.callers[c].AtCheck?
    case OfGoroutine(t) => t in w.cache.threads && !BeforeCheck(w.cache.threads[t].pc)
  }

  /** A check that began after `w` has ended with the verdict `v`. */
  predicate Fresh(w: World, ended: set<(Check, bool)>, check: Check, v: bool) {
    (check, v) in ended && !Begun(w, check)
  }

  /** Every call that begins after `w` and is answered gets the verdict of a check that began after `w`. */
  ghost predicate AllFresh(w: World) {
    forall moves, c | IsRun(w, moves) && c in Run(w, moves).callers && c !in w.callers ::
      Run(w, moves).callers[c].Answered? ==>
        Fresh(w, Ended(moves), Run(w, moves).callers[c].check, Run(w, moves).callers[c].v)
  }

  /** A verdict that some check since `w` has found, though perhaps not the one that is passed on. */
  ghost predicate Confirmed(w: World, ended: set<(Check, bool)>, v: bool) {
    exists check :: Fresh(w, ended, check, v)
  }

  ghost predicate AllConfirmed(w: World) {
    forall moves, c | IsRun(w, moves) && c in Run(w, moves).callers && c !in w.callers ::
      Run(w, moves).callers[c].Answered? ==> Confirmed(w, Ended(moves), Run(w, moves).callers[c].v)
  }

  // ---------------------------------------------------------------- what the cache may hand out

  /** It can still hand the verdict to others. */
  predicate HandsOn(pc: CacheFlight.Pc) {
    pc.Storing? || pc.Finishing?
  }

  predicate Carries(pc: CacheFlight.Pc, d: Verdict) {
    HandsOn(pc) && Carried(pc) == Some(d)
  }

  /** The cache has `d`, or has a flight that is about to store or to deliver it. */
  ghost predicate Held(w: World, d: Verdict) {
    || (KEY in w.cache.store && VerdictOf(w.cache.store[KEY]) == d)
    || (exists t :: t in w.cache.threads && Carries(w.cache.threads[t].pc, d))
  }

  ghost predicate NoneFetching(w: World) {
    forall t :: t in w.cache.threads ==> !w.cache.threads[t].pc.Fetching?
  }

  ghost predicate NothingHeld(w: World) {
    forall d :: !Held(w, d)
  }

  /** A call's own check is running, or has found the device trusted and is not stored in the flag yet. */
  ghost predicate Raising(w: World) {
    exists c :: c in w.callers && (w.callers[c] == Checking || w.callers[c] == AtStore(true))
  }

  // ---------------------------------------------------------------- reachable worlds

  /** What a flight is about to do fits the store. */
  ghost predicate FitsStore(s: CacheFlight.State, th: CacheFlight.Thread) {
    match th.pc
    case Fetching(Miss) => th.key !in s.store
    case Storing(Miss, _) => th.key !in s.store
    case Finishing(_, Error(_, _)) => th.key !in s.store
    case Finishing(Miss, Fetched(e)) => th.key in s.store ==> s.store[th.key] == e
    case Finishing(Refresh, Fetched(_)) => false
    case _ => true
  }

  ghost predicate Coherent(s: CacheFlight.State) {
    forall t :: t in s.threads ==> FitsStore(s, s.threads[t])
  }

  predicate PastBegin(s: CacheFlight.State, t: nat) {
    t in s.threads && !BeforeCheck(s.threads[t].pc)
  }

  /** Whoever is named as the runner of a check has begun one. */
  ghost predicate Named(s: CacheFlight.State) {
    && (forall k :: k in s.store ==> PastBegin(s, s.store[k].fetcher))
    && (forall t :: t in s.threads && Carried(s.threads[t].pc).Some? ==> PastBegin(s, Carried(s.threads[t].pc).value.runner))
  }

  ghost predicate OneKey(s: CacheFlight.State) {
    && (forall t :: t in s.threads ==> s.threads[t].key == KEY)
    && (forall k :: k in s.store ==> k == KEY)
  }

  ghost predicate Sound(w: World) {
    CacheFlight.Exclusive(w.cache) && Coherent(w.cache) && Named(w.cache) && OneKey(w.cache)
  }

  lemma CoherentStep(s: CacheFlight.State, step: CacheFlight.Step)
    requires CacheFlight.Exclusive(s) && Coherent(s) && CacheFlight.Enabled(s, step)
    ensures Coherent(CacheFlight.Apply(s, step))
  {
    forall u | u in CacheFlight.Apply(s, step).threads
      ensures FitsStore(CacheFlight.Apply(s, step), CacheFlight.Apply(s, step).threads[u])
    {
      CoherentThread(s, step, u);
    }
  }

  lemma CoherentThread(s: CacheFlight.State, step: CacheFlight.Step, u: nat)
    requires CacheFlight.Exclusive(s) && Coherent(s) && CacheFlight.Enabled(s, step)
    requires u in CacheFlight.Apply(s, step).threads
    ensures FitsStore(CacheFlight.Apply(s, step), CacheFlight.Apply(s, step).threads[u])
  {
    CacheFlight.ThreadAfter(s, step, u);
    if u in s.threads {
      assert FitsStore(s, s.threads[u]);
      if step.Store? && u != step.t && CacheFlight.Leads(s.threads[u].pc) {
        assert CacheFlight.Leads(s.threads[step.t].pc);
        assert s.threads[u].key != s.threads[step.t].key;
      }
    }
  }

  lemma KeysStep(s: CacheFlight.State, step: CacheFlight.Step)
    requires CacheFlight.Exclusive(s) && CacheFlight.Enabled(s, step) && OneKey(s)
    requires step.Call? ==> step.key == KEY
    ensures OneKey(CacheFlight.Apply(s, step))
  {
    forall t | t in CacheFlight.Apply(s, step).threads ensures CacheFlight.Apply(s, step).threads[t].key == KEY {
      CacheFlight.ThreadAfter(s, step, t);
    }
  }

  /** A goroutine that has begun its check never comes back before it, and one that has ended it never
      fetches again. */
  lemma PastStays(s: CacheFlight.State, step: CacheFlight.Step, t: nat)
    requires CacheFlight.Exclusive(s) && CacheFlight.Enabled(s, step) && PastBegin(s, t)
    ensures var s' := CacheFlight.Apply(s, step);
            PastBegin(s', t) && (s'.threads[t].pc.Fetching? ==> s.threads[t].pc.Fetching?)
  {
    assert t in CacheFlight.Apply(s, step).threads;
    CacheFlight.ThreadAfter(s, step, t);
  }

  /** Where the verdict of a goroutine comes from after it has moved: it had it, found it stored, or has
      just run the check. */
  lemma MovedCarries(s: CacheFlight.State, step: CacheFlight.Step)
    requires CacheFlight.Enabled(s, step) && CacheFlight.OwnMove(step)
    ensures var th, pc := s.threads[step.t], CacheFlight.Moved(s, step);
            Carried(pc).Some? ==>
              || (Carried(pc) == Carried(th.pc) && (HandsOn(pc) ==> HandsOn(th.pc)))
              || (th.key in s.store && Carried(pc).value == VerdictOf(s.store[th.key]))
              || (th.pc.Fetching? && Carried(pc).value.runner == step.t && !BeforeCheck(pc)
                  && (OfGoroutine(step.t), Carried(pc).value.v) in EndedBy(Cache(step)))
  {
  }

  /** The same for any goroutine and any step: the verdict may also come from the flight that it waited for. */
  lemma CarriedAfter(s: CacheFlight.State, step: CacheFlight.Step, u: nat, d: Verdict)
    requires CacheFlight.Exclusive(s) && CacheFlight.Enabled(s, step) && u in CacheFlight.Apply(s, step).threads
    requires Carried(CacheFlight.Apply(s, step).threads[u].pc) == Some(d)
    ensures var pc := CacheFlight.Apply(s, step).threads[u].pc;
      || (u in s.threads && Carried(s.threads[u].pc) == Some(d) && (HandsOn(pc) ==> HandsOn(s.threads[u].pc)))
      || (u in s.threads && s.threads[u].key in s.store && d == VerdictOf(s.store[s.threads[u].key]))
      || (CacheFlight.OwnMove(step) && u == step.t && s.threads[u].pc.Fetching? && d.runner == u && !BeforeCheck(pc)
          && (OfGoroutine(u), d.v) in EndedBy(Cache(step)))
      || (step.Finish? && Carries(s.threads[step.t].pc, d))
  {
    CacheFlight.ThreadAfter(s, step, u);
    if CacheFlight.OwnMove(step) && u == step.t {
      MovedCarries(s, step);
    }
  }

  lemma NamedThread(s: CacheFlight.State, step: CacheFlight.Step, u: nat)
    requires CacheFlight.Exclusive(s) && CacheFlight.Enabled(s, step) && Named(s)
    requires u in CacheFlight.Apply(s, step).threads && Carried(CacheFlight.Apply(s, step).threads[u].pc).Some?
    ensures PastBegin(CacheFlight.Apply(s, step), Carried(CacheFlight.Apply(s, step).threads[u].pc).value.runner)
  {
    var d := Carried(CacheFlight.Apply(s, step).threads[u].pc).value;
    CarriedAfter(s, step, u, d);
    if PastBegin(s, d.runner) {
      PastStays(s, step, d.runner);
    }
  }

  lemma NamedStep(s: CacheFlight.State, step: CacheFlight.Step)
    requires CacheFlight.Exclusive(s) && CacheFlight.Enabled(s, step) && Named(s)
    ensures Named(CacheFlight.Apply(s, step))
  {
    var s' := CacheFlight.Apply(s, step);
    forall u | u in s'.threads && Carried(s'.threads[u].pc).Some?
      ensures PastBegin(s', Carried(s'.threads[u].pc).value.runner)
    {
      NamedThread(s, step, u);
    }
    forall k | k in s'.store ensures PastBegin(s', s'.store[k].fetcher) {
      assert step.Store? ==> Carried(s.threads[step.t].pc) == Some(VerdictOf(s.threads[step.t].pc.e));
      PastStays(s, step, s'.store[k].fetcher);
    }
  }

  lemma CacheSound(w: World, step: CacheFlight.Step, w': World)
    requires Sound(w) && CacheFlight.Enabled(w.cache, step) && (step.Call? ==> step.key == KEY)
    requires w'.cache == CacheFlight.Apply(w.cache, step)
    ensures Sound(w')
  {
    CacheFlight.ExclusiveStep(w.cache, step);
    CoherentStep(w.cache, step);
    NamedStep(w.cache, step);
    KeysStep(w.cache, step);
  }

  lemma SoundStep(w: World, m: Move)
    requires Sound(w) && Enabled(w, m)
    ensures Sound(After(w, m))
  {
    if m.Cache? {
      CacheSound(w, m.step, After(w, m));
    } else if m.LoadFlag? && w.seen {
      CacheSound(w, CacheFlight.Call(m.t, KEY), After(w, m));
    }
  }

  /** In every run what a flight is about to store or to deliver fits what is stored, and a verdict names
      a goroutine that has begun its check. */
  lemma {:induction false} SoundRun(w: World, moves: seq<Move>)
    requires Sound(w) && IsRun(w, moves)
    ensures Sound(Run(w, moves))
    decreases |moves|
  {
    if moves != [] {
      SoundStep(w, moves[0]);
      SoundRun(After(w, moves[0]), moves[1..]);
    }
  }

  // ---------------------------------------------------------------- fresh answers

  /** How the flag can be up: it was, a check since has found the device trusted, or an older call does. */
  ghost predicate MayBeUp(w: World, ended: set<(Check, bool)>) {
    w.seen || Raising(w) || Confirmed(w, ended, true)
  }

  ghost predicate Accounted(w: World, ended: set<(Check, bool)>, d: Verdict) {
    Fresh(w, ended, OfGoroutine(d.runner), d.v) || Held(w, d)
  }

  /** What `w` and the checks that have ended since say about a call ... */
  ghost predicate CallerFits(w: World, ended: set<(Check, bool)>, c: nat, caller: Caller) {
    match caller
    case AtFlag => !Begun(w, OfCall(c))
    case AtCheck => !Begun(w, OfCall(c))
    case Checking => !Begun(w, OfCall(c)) || Raising(w)
    case AtStore(v) => (v ==> MayBeUp(w, ended)) && (c !in w.callers ==> Fresh(w, ended, OfCall(c), v))
    case InCache(t) => c !in w.callers ==> t !in w.cache.threads && MayBeUp(w, ended)
    case Answered(v, check) =>
      c !in w.callers ==>
        Fresh(w, ended, check, v) || (check.OfGoroutine? && Held(w, Verdict(v, check.t)) && MayBeUp(w, ended))
  }

  /** ... about a goroutine of the cache ... */
  ghost predicate ThreadFits(w: World, ended: set<(Check, bool)>, t: nat, pc: CacheFlight.Pc) {
    && (BeforeCheck(pc) || pc.Fetching? ==> !Begun(w, OfGoroutine(t)))
    && (Carried(pc).Some? && (t !in w.cache.threads || HandsOn(pc)) ==> Accounted(w, ended, Carried(pc).value))
  }

  /** ... and about all of a later world. */
  ghost predicate Follows(w: World, ended: set<(Check, bool)>, f: World) {
    && w.cache.threads.Keys <= f.cache.threads.Keys && w.callers.Keys <= f.callers.Keys
    && (forall k :: k in f.cache.store ==> Accounted(w, ended, VerdictOf(f.cache.store[k])))
    && (forall t :: t in f.cache.threads ==> ThreadFits(w, ended, t, f.cache.threads[t].pc))
    && (f.seen ==> MayBeUp(w, ended))
    && (forall c :: c in f.callers ==> CallerFits(w, ended, c, f.callers[c]))
  }

  lemma ConfirmedStays(w: World, ended: set<(Check, bool)>, more: set<(Check, bool)>, v: bool)
    requires Confirmed(w, ended, v)
    ensures Confirmed(w, ended + more, v)
  {
    var check :| Fresh(w, ended, check, v);
    assert Fresh(w, ended + more, check, v);
  }

  lemma CallerStays(w: World, ended: set<(Check, bool)>, more: set<(Check, bool)>, c: nat, caller: Caller)
    requires CallerFits(w, ended, c, caller)
    ensures CallerFits(w, ended + more, c, caller)
  {
    if Confirmed(w, ended, true) {
      ConfirmedStays(w, ended, more, true);
    }
  }

  lemma BeforeStays(w: World, f: World, ended: set<(Check, bool)>, step: CacheFlight.Step, u: nat)
    requires CacheFlight.Exclusive(f.cache) && Follows(w, ended, f) && CacheFlight.Enabled(f.cache, step)
    requires u in CacheFlight.Apply(f.cache, step).threads
    ensures var pc := CacheFlight.Apply(f.cache, step).threads[u].pc;
            BeforeCheck(pc) || pc.Fetching? ==> !Begun(w, OfGoroutine(u))
  {
    var pc := CacheFlight.Apply(f.cache, step).threads[u].pc;
    if PastBegin(f.cache, u) {
      PastStays(f.cache, step, u);
      assert ThreadFits(w, ended, u, f.cache.threads[u].pc);
    } else if u in f.cache.threads {
      assert ThreadFits(w, ended, u, f.cache.threads[u].pc);
    }
  }

  lemma CarriesStays(w: World, f: World, ended: set<(Check, bool)>, step: CacheFlight.Step, u: nat)
    requires Sound(f) && Follows(w, ended, f) && CacheFlight.Enabled(f.cache, step)
    requires u in CacheFlight.Apply(f.cache, step).threads
    ensures var pc := CacheFlight.Apply(f.cache, step).threads[u].pc;
            Carried(pc).Some? && (u !in w.cache.threads || HandsOn(pc)) ==>
              Accounted(w, ended + EndedBy(Cache(step)), Carried(pc).value)
  {
    var s, pc := f.cache, CacheFlight.Apply(f.cache, step).threads[u].pc;
    if Carried(pc).Some? {
      CarriedAfter(s, step, u, Carried(pc).value);
      if u in s.threads {
        assert ThreadFits(w, ended, u, s.threads[u].pc);
      }
      if step.Finish? {
        assert ThreadFits(w, ended, step.t, s.threads[step.t].pc);
      }
    }
  }

  lemma StoreStays(w: World, f: World, ended: set<(Check, bool)>, step: CacheFlight.Step, k: CacheFlight.Key)
    requires Follows(w, ended, f) && CacheFlight.Enabled(f.cache, step)
    requires k in CacheFlight.Apply(f.cache, step).store
    ensures Accounted(w, ended + EndedBy(Cache(step)), VerdictOf(CacheFlight.Apply(f.cache, step).store[k]))
  {
    if step.Store? {
      assert ThreadFits(w, ended, step.t, f.cache.threads[step.t].pc);
    }
  }

  lemma CacheFollows(w: World, f: World, ended: set<(Check, bool)>, step: CacheFlight.Step, g: World)
    requires Sound(f) && Follows(w, ended, f) && CacheFlight.Enabled(f.cache, step)
    requires g == f.(cache := CacheFlight.Apply(f.cache, step))
    ensures Follows(w, ended + EndedBy(Cache(step)), g)
  {
    var more := EndedBy(Cache(step));
    forall u | u in g.cache.threads ensures ThreadFits(w, ended + more, u, g.cache.threads[u].pc) {
      BeforeStays(w, f, ended, step, u);
      CarriesStays(w, f, ended, step, u);
    }
    forall k | k in g.cache.store ensures Accounted(w, ended + more, VerdictOf(g.cache.store[k])) {
      StoreStays(w, f, ended, step, k);
    }
    forall c | c in g.callers ensures CallerFits(w, ended + more, c, g.callers[c]) {
      CallerStays(w, ended, more, c, f.callers[c]);
    }
    if Confirmed(w, ended, true) {
      ConfirmedStays(w, ended, more, true);
    }
  }

  /** The call that a move is about, afterwards. */
  lemma MoverFits(w: World, f: World, ended: set<(Check, bool)>, m: Move)
    requires Follows(w, ended, f) && Enabled(f, m) && !m.Cache? && !m.Lower?
    ensures CallerFits(w, ended + EndedBy(m), m.c, After(f, m).callers[m.c])
  {
    if m.EndCheck? {
      assert CallerFits(w, ended, m.c, f.callers[m.c]);
      if !Begun(w, OfCall(m.c)) {
        assert Fresh(w, ended + EndedBy(m), OfCall(m.c), m.v);
      }
    } else if !m.Ask? {
      assert ended + EndedBy(m) == ended;
      assert CallerFits(w, ended, m.c, f.callers[m.c]);
      if m.Take? {
        assert ThreadFits(w, ended, f.callers[m.c].t, f.cache.threads[f.callers[m.c].t].pc);
      }
    }
  }

  lemma CallerMoves(w: World, f: World, ended: set<(Check, bool)>, m: Move)
    requires Sound(f) && Follows(w, ended, f) && Enabled(f, m) && !m.Cache?
    ensures Follows(w, ended + EndedBy(m), After(f, m))
  {
    var more, g := EndedBy(m), After(f, m);
    if m.LoadFlag? && f.seen {
      var call := CacheFlight.Call(m.t, KEY);
      CacheFollows(w, f, ended, call, f.(cache := CacheFlight.Apply(f.cache, call)));
      assert ended + EndedBy(Cache(call)) == ended + more;
    }
    if !m.Lower? {
      MoverFits(w, f, ended, m);
    }
    forall c | c in g.callers ensures CallerFits(w, ended + more, c, g.callers[c]) {
      if m.Lower? || c != m.c {
        CallerStays(w, ended, more, c, f.callers[c]);
      }
    }
    if m.StoreFlag? {
      assert CallerFits(w, ended, m.c, f.callers[m.c]);
    }
    if Confirmed(w, ended, true) {
      ConfirmedStays(w, ended, more, true);
    }
  }

  lemma {:induction false} FollowsRun(w: World, f: World, ended: set<(Check, bool)>, moves: seq<Move>)
    requires Sound(f) && Follows(w, ended, f) && IsRun(f, moves)
    ensures Follows(w, ended + Ended(moves), Run(f, moves))
    decreases |moves|
  {
    if moves == [] {
      assert ended + {} == ended;
    } else {
      var g := After(f, moves[0]);
      if moves[0].Cache? {
        CacheFollows(w, f, ended, moves[0].step, g);
      } else {
        CallerMoves(w, f, ended, moves[0]);
      }
      SoundStep(f, moves[0]);
      FollowsRun(w, g, ended + EndedBy(moves[0]), moves[1..]);
      assert ended + EndedBy(moves[0]) + Ended(moves[1..]) == ended + Ended(moves);
    }
  }

  lemma StartsFollowing(w: World)
    requires Sound(w) && NoneFetching(w)
    ensures Follows(w, {}, w)
  {
    forall t | t in w.cache.threads ensures ThreadFits(w, {}, t, w.cache.threads[t].pc) {
      var pc := w.cache.threads[t].pc;
      if HandsOn(pc) && Carried(pc).Some? {
        assert Carries(pc, Carried(pc).value);
      }
    }
  }

  /** What an answer after `w` is, when nobody is fetching in `w`. */
  lemma AnswerFits(w: World, moves: seq<Move>, c: nat)
    requires Sound(w) && NoneFetching(w) && IsRun(w, moves)
    requires c in Run(w, moves).callers && c !in w.callers && Run(w, moves).callers[c].Answered?
    ensures var a := Run(w, moves).callers[c];
      || Fresh(w, Ended(moves), a.check, a.v)
      || (a.check.OfGoroutine? && Held(w, Verdict(a.v, a.check.t)) && MayBeUp(w, Ended(moves)))
  {
    StartsFollowing(w);
    FollowsRun(w, w, {}, moves);
    assert {} + Ended(moves) == Ended(moves);
    assert CallerFits(w, Ended(moves), c, Run(w, moves).callers[c]);
  }

  // ---------------------------------------------------------------- runs that lead somewhere

  lemma {:induction false} RunMore(w: World, moves: seq<Move>, m: Move)
    requires IsRun(w, moves) && Enabled(Run(w, moves), m)
    ensures IsRun(w, moves + [m]) && Run(w, moves + [m]) == After(Run(w, moves), m)
    ensures Ended(moves + [m]) == Ended(moves) + EndedBy(m)
    decreases |moves|
  {
    if moves == [] {
      assert [] + [m] == [m];
    } else {
      assert (moves + [m])[1..] == moves[1..] + [m];
      RunMore(After(w, moves[0]), moves[1..], m);
    }
  }

  /** `f` is reached from `w`, and `ended` are the checks that end on the way. */
  ghost predicate Reaches(w: World, f: World, ended: set<(Check, bool)>) {
    exists moves :: IsRun(w, moves) && Run(w, moves) == f && Ended(moves) == ended
  }

  lemma ReachesSelf(w: World)
    ensures Reaches(w, w, {})
  {
    assert IsRun(w, []) && Run(w, []) == w && Ended([]) == {};
  }

  lemma ReachesMore(w: World, f: World, ended: set<(Check, bool)>, m: Move)
    requires Reaches(w, f, ended) && Enabled(f, m)
    ensures Reaches(w, After(f, m), ended + EndedBy(m))
  {
    var moves :| IsRun(w, moves) && Run(w, moves) == f && Ended(moves) == ended;
    RunMore(w, moves, m);
    assert Run(w, moves + [m]) == After(f, m) && Ended(moves + [m]) == ended + EndedBy(m);
  }

  /** The same for a move in which no check ends. */
  lemma ReachesQuietly(w: World, f: World, ended: set<(Check, bool)>, m: Move)
    requires Reaches(w, f, ended) && Enabled(f, m) && EndedBy(m) == {}
    ensures Reaches(w, After(f, m), ended)
  {
    ReachesMore(w, f, ended, m);
    assert ended + {} == ended;
  }

  lemma ReachesSound(w: World, f: World, ended: set<(Check, bool)>)
    requires Sound(w) && Reaches(w, f, ended)
    ensures Sound(f)
  {
    var moves :| IsRun(w, moves) && Run(w, moves) == f && Ended(moves) == ended;
    SoundRun(w, moves);
  }

  lemma FreshId<V>(m: map<nat, V>) returns (n: nat)
    ensures n !in m
  {
    var keys := m.Keys;
    n := 0;
    while n in keys
      invariant keys <= m.Keys && forall i :: 0 <= i < n ==> i !in keys
      invariant forall i :: i in m.Keys && i >= n ==> i in keys
      decreases keys
    {
      keys := keys - {n};
      n := n + 1;
    }
  }

  /** A call that begins after `w` is answered with the verdict `d`. */
  ghost predicate AnswersWith(w: World, f: World, ended: set<(Check, bool)>, d: Verdict) {
    Reaches(w, f, ended) && exists c :: c in f.callers && c !in w.callers && f.callers[c] == Answered(d.v, OfGoroutine(d.runner))
  }

  /** A new call enters the cache. */
  lemma CallEnters(w: World, f: World, ended: set<(Check, bool)>) returns (g: World, c: nat, t: nat)
    requires Reaches(w, f, ended) && f.seen && w.callers.Keys <= f.callers.Keys
    ensures Reaches(w, g, ended) && c !in w.callers && c in g.callers && g.callers[c] == InCache(t)
    ensures t !in f.cache.threads && forall k :: k in f.callers ==> k in g.callers && g.callers[k] == f.callers[k]
    ensures g.cache == f.cache.(threads := f.cache.threads[t := CacheFlight.Thread(KEY, CacheFlight.AtLoad, None)])
  {
    c := FreshId(f.callers);
    t := FreshId(f.cache.threads);
    var f1 := After(f, Ask(c));
    ReachesQuietly(w, f, ended, Ask(c));
    ReachesQuietly(w, f1, ended, LoadFlag(c, t));
    g := After(f1, LoadFlag(c, t));
  }

  /** A move of a goroutine of the cache in which no check ends. */
  lemma CacheMoves(w: World, f: World, ended: set<(Check, bool)>, step: CacheFlight.Step) returns (g: World)
    requires Reaches(w, f, ended) && CacheFlight.Enabled(f.cache, step)
    requires !step.Call? && !step.FetchOk? && !step.FetchErr?
    ensures Reaches(w, g, ended) && g == f.(cache := CacheFlight.Apply(f.cache, step))
  {
    ReachesQuietly(w, f, ended, Cache(step));
    g := After(f, Cache(step));
  }

  /** A call takes the verdict that its goroutine came back with. */
  lemma CallTakes(w: World, f: World, ended: set<(Check, bool)>, d: Verdict, c: nat, t: nat) returns (g: World)
    requires Reaches(w, f, ended) && c in f.callers && c !in w.callers && f.callers[c] == InCache(t)
    requires t in f.cache.threads && (f.cache.threads[t].pc.Returned? || f.cache.threads[t].pc.Failed?)
    requires Carried(f.cache.threads[t].pc) == Some(d)
    ensures AnswersWith(w, g, ended, d)
  {
    ReachesQuietly(w, f, ended, Take(c));
    g := After(f, Take(c));
    assert g.callers[c] == Answered(d.v, OfGoroutine(d.runner));
  }

  /** With the flag up and a value stored, a new call gets that value. */
  lemma StoreAnswers(w: World, f: World, ended: set<(Check, bool)>) returns (g: World)
    requires Reaches(w, f, ended) && f.seen && w.callers.Keys <= f.callers.Keys && KEY in f.cache.store
    ensures AnswersWith(w, g, ended, VerdictOf(f.cache.store[KEY]))
  {
    var f1, c, t := CallEnters(w, f, ended);
    var u := FreshId(f1.cache.threads);
    var f2 := CacheMoves(w, f1, ended, CacheFlight.Look(t, u));
    assert f2.cache.threads[t].pc == CacheFlight.Returned(f.cache.store[KEY]);
    g := CallTakes(w, f2, ended, VerdictOf(f.cache.store[KEY]), c, t);
  }

  lemma Delivered(s: CacheFlight.State, l: nat, t: nat)
    requires CacheFlight.Enabled(s, CacheFlight.Finish(l)) && t in s.threads && t != l
    requires s.threads[t].key == s.threads[l].key && s.threads[t].pc == CacheFlight.Waiting(CacheFlight.Miss)
    ensures var s' := CacheFlight.Apply(s, CacheFlight.Finish(l));
            t in s'.threads && s'.threads[t].pc == CacheFlight.Got(CacheFlight.Miss, s.threads[l].pc.r)
  {
  }

  lemma Handed(s: CacheFlight.State, t: nat, r: CacheFlight.Result)
    requires t in s.threads && s.threads[t].pc == CacheFlight.Got(CacheFlight.Miss, r) && !r.Nothing?
    ensures var s' := CacheFlight.Apply(s, CacheFlight.Return(t));
      && t in s'.threads && (s'.threads[t].pc.Returned? || s'.threads[t].pc.Failed?)
      && Carried(s'.threads[t].pc) == Carried(s.threads[t].pc)
  {
  }

  /** A call that waits for a flight gets what the flight delivers. */
  lemma WaiterAnswers(w: World, f: World, ended: set<(Check, bool)>, d: Verdict, c: nat, t: nat, l: nat) returns (g: World)
    requires Reaches(w, f, ended) && c in f.callers && c !in w.callers && f.callers[c] == InCache(t)
    requires t in f.cache.threads && f.cache.threads[t].key == KEY
    requires f.cache.threads[t].pc == CacheFlight.Waiting(CacheFlight.Miss)
    requires l in f.cache.threads && f.cache.threads[l].key == KEY && f.cache.threads[l].pc.Finishing?
    requires Carried(f.cache.threads[l].pc) == Some(d)
    ensures AnswersWith(w, g, ended, d)
  {
    Delivered(f.cache, l, t);
    var f1 := CacheMoves(w, f, ended, CacheFlight.Finish(l));
    Handed(f1.cache, t, f.cache.threads[l].pc.r);
    var f2 := CacheMoves(w, f1, ended, CacheFlight.Return(t));
    g := CallTakes(w, f2, ended, d, c, t);
  }

  lemma LookMisses(s: CacheFlight.State, t: nat, u: nat)
    requires At(s.threads, t) == Some(CacheFlight.Thread(KEY, CacheFlight.AtLoad, None)) && u !in s.threads
    requires KEY !in s.store
    ensures CacheFlight.Apply(s, CacheFlight.Look(t, u)) ==
            s.(threads := s.threads[t := CacheFlight.Thread(KEY, CacheFlight.AtDo(CacheFlight.Miss), None)])
  {
  }

  /** With nothing stored and a flight under way, a new goroutine looks and joins. */
  lemma Joined(s: CacheFlight.State, t: nat)
    requires At(s.threads, t) == Some(CacheFlight.Thread(KEY, CacheFlight.AtDo(CacheFlight.Miss), None))
    requires KEY in s.flights
    ensures CacheFlight.Enabled(s, CacheFlight.Enter(t))
    ensures var s' := CacheFlight.Apply(s, CacheFlight.Enter(t));
      && t in s'.threads && s'.threads[t].key == KEY && s'.threads[t].pc == CacheFlight.Waiting(CacheFlight.Miss)
      && forall l :: l in s.threads && l != t ==> l in s'.threads && s'.threads[l] == s.threads[l]
  {
  }

  /** With nothing stored and a flight about to deliver, a new call joins it. */
  lemma FlightAnswers(w: World, f: World, ended: set<(Check, bool)>, d: Verdict, l: nat) returns (g: World)
    requires Sound(f) && Reaches(w, f, ended) && f.seen && w.callers.Keys <= f.callers.Keys
    requires KEY !in f.cache.store && l in f.cache.threads && f.cache.threads[l].pc.Finishing?
    requires Carried(f.cache.threads[l].pc) == Some(d)
    ensures AnswersWith(w, g, ended, d)
  {
    assert CacheFlight.Leads(f.cache.threads[l].pc) && KEY in f.cache.flights;
    var f1, c, t := CallEnters(w, f, ended);
    var u := FreshId(f1.cache.threads);
    LookMisses(f1.cache, t, u);
    var f2 := CacheMoves(w, f1, ended, CacheFlight.Look(t, u));
    Joined(f2.cache, t);
    var f3 := CacheMoves(w, f2, ended, CacheFlight.Enter(t));
    g := WaiterAnswers(w, f3, ended, d, c, t, l);
  }

  /** So with the flag up, whatever the cache holds can be somebody's answer. */
  lemma HeldAnswers(w: World, f: World, ended: set<(Check, bool)>, d: Verdict) returns (g: World)
    requires Sound(f) && Reaches(w, f, ended) && f.seen && w.callers.Keys <= f.callers.Keys && Held(f, d)
    ensures AnswersWith(w, g, ended, d)
  {
    if KEY in f.cache.store && VerdictOf(f.cache.store[KEY]) == d {
      g := StoreAnswers(w, f, ended);
    } else {
      var t :| t in f.cache.threads && Carries(f.cache.threads[t].pc, d);
      assert FitsStore(f.cache, f.cache.threads[t]);
      if f.cache.threads[t].pc.Storing? {
        var f1 := CacheMoves(w, f, ended, CacheFlight.Store(t));
        g := StoreAnswers(w, f1, ended);
      } else {
        g := FlightAnswers(w, f, ended, d, t);
      }
    }
  }

  /** A goroutine of the cache ends its check, and holds the verdict. */
  lemma CacheChecks(w: World, f: World, ended: set<(Check, bool)>, t: nat, v: bool) returns (g: World)
    requires Reaches(w, f, ended) && t in f.cache.threads && f.cache.threads[t].pc.Fetching?
    ensures Reaches(w, g, ended + {(OfGoroutine(t), v)}) && g.callers == f.callers && g.seen == f.seen
    ensures Held(g, Verdict(v, t)) && g.cache.store == f.cache.store
  {
    var m := Cache(CacheFlight.FetchOk(t, if v then "true" else "false"));
    ReachesMore(w, f, ended, m);
    g := After(f, m);
    assert Carries(g.cache.threads[t].pc, Verdict(v, t));
  }

  /** A new call finds the flag down and checks. */
  lemma CallChecks(w: World, f: World, ended: set<(Check, bool)>, c: nat, v: bool) returns (g: World)
    requires Reaches(w, f, ended) && !f.seen && c !in f.callers
    ensures g == f.(callers := f.callers[c := AtStore(v)]) && Reaches(w, g, ended + {(OfCall(c), v)})
  {
    var t := FreshId(f.cache.threads);
    ReachesQuietly(w, f, ended, Ask(c));
    var f1 := After(f, Ask(c));
    ReachesQuietly(w, f1, ended, LoadFlag(c, t));
    var f2 := After(f1, LoadFlag(c, t));
    assert f2 == f.(callers := f.callers[c := AtCheck]);
    g := CallBegins(w, f2, ended, c, v);
    assert f.callers[c := AtCheck][c := AtStore(v)] == f.callers[c := AtStore(v)];
  }

  lemma CallBegins(w: World, f: World, ended: set<(Check, bool)>, c: nat, v: bool) returns (g: World)
    requires Reaches(w, f, ended) && c in f.callers && f.callers[c] == AtCheck
    ensures g == f.(callers := f.callers[c := AtStore(v)]) && Reaches(w, g, ended + {(OfCall(c), v)})
  {
    ReachesQuietly(w, f, ended, BeginCheck(c));
    g := CallEnds(w, After(f, BeginCheck(c)), ended, c, v);
    assert f.callers[c := Checking][c := AtStore(v)] == f.callers[c := AtStore(v)];
  }

  lemma CallEnds(w: World, f: World, ended: set<(Check, bool)>, c: nat, v: bool) returns (g: World)
    requires Reaches(w, f, ended) && c in f.callers && f.callers[c] == Checking
    ensures g == f.(callers := f.callers[c := AtStore(v)]) && Reaches(w, g, ended + {(OfCall(c), v)})
  {
    ReachesMore(w, f, ended, EndCheck(c, v));
    g := After(f, EndCheck(c, v));
  }

  lemma CallStores(w: World, f: World, ended: set<(Check, bool)>, c: nat) returns (g: World)
    requires Reaches(w, f, ended) && c in f.callers && f.callers[c].AtStore?
    ensures g == f.(seen := f.callers[c].v, callers := f.callers[c := Answered(f.callers[c].v, OfCall(c))])
    ensures Reaches(w, g, ended)
  {
    ReachesQuietly(w, f, ended, StoreFlag(c));
    g := After(f, StoreFlag(c));
  }

  // ---------------------------------------------------------------- the two conditions

  /** The flag is up, or a new call raises it. */
  lemma FlagRises(w: World) returns (f: World, ended: set<(Check, bool)>)
    ensures Reaches(w, f, ended) && f.seen && f.cache == w.cache && w.callers.Keys <= f.callers.Keys
    ensures forall check, v :: (check, v) in ended ==> v
  {
    ReachesSelf(w);
    if w.seen {
      f, ended := w, {};
    } else {
      var c := FreshId(w.callers);
      var f1 := CallChecks(w, w, {}, c, true);
      ended := {} + {(OfCall(c), true)};
      f := CallStores(w, f1, ended, c);
    }
  }

  /** From a world in which a goroutine is fetching or something is held, a later call gets the verdict of
      a check that had begun: any held verdict, or false from the one that is fetched. */
  lemma OldAnswers(w: World, f: World, ended: set<(Check, bool)>, d: Verdict, t: nat)
    returns (g: World, ended': set<(Check, bool)>, d': Verdict)
    requires Sound(w) && Reaches(w, f, ended) && f.seen && f.cache == w.cache && w.callers.Keys <= f.callers.Keys
    requires Held(w, d) || (t in w.cache.threads && w.cache.threads[t].pc.Fetching?)
    ensures AnswersWith(w, g, ended', d') && Begun(w, OfGoroutine(d'.runner))
    ensures if Held(w, d) then d' == d && ended' == ended
            else d' == Verdict(false, t) && ended' == ended + {(OfGoroutine(t), false)}
  {
    ReachesSound(w, f, ended);
    if Held(w, d) {
      HeldBegun(w, d);
      SameCacheHolds(w, f, d);
      d', ended' := d, ended;
      g := HeldAnswers(w, f, ended, d);
    } else {
      d', ended' := Verdict(false, t), ended + {(OfGoroutine(t), false)};
      var f1 := CacheChecks(w, f, ended, t, false);
      ReachesSound(w, f1, ended');
      g := HeldAnswers(w, f1, ended', d');
    }
  }

  lemma HeldBegun(w: World, d: Verdict)
    requires Sound(w) && Held(w, d)
    ensures Begun(w, OfGoroutine(d.runner))
  {
    if !(KEY in w.cache.store && VerdictOf(w.cache.store[KEY]) == d) {
      var t :| t in w.cache.threads && Carries(w.cache.threads[t].pc, d);
      assert PastBegin(w.cache, Carried(w.cache.threads[t].pc).value.runner);
    }
  }

  lemma SameCacheHolds(w: World, f: World, d: Verdict)
    requires f.cache == w.cache
    ensures Held(w, d) <==> Held(f, d)
  {
  }

  lemma AnswerIsNotFresh(w: World, g: World, ended: set<(Check, bool)>, d: Verdict)
    requires AnswersWith(w, g, ended, d)
    ensures Begun(w, OfGoroutine(d.runner)) ==> !AllFresh(w)
    ensures !Confirmed(w, ended, d.v) ==> !AllConfirmed(w)
  {
    var moves :| IsRun(w, moves) && Run(w, moves) == g && Ended(moves) == ended;
    var c :| c in g.callers && c !in w.callers && g.callers[c] == Answered(d.v, OfGoroutine(d.runner));
    assert c in Run(w, moves).callers;
  }

  /** Exactly: every call that begins after a moment is answered by a check that begins after it if and only
      if at that moment the cache neither has a verdict, nor is about to store or deliver one, nor is
      fetching one. Whether the flag is up then does not matter. */
  lemma FreshIff(w: World)
    requires Sound(w)
    ensures AllFresh(w) <==> NoneFetching(w) && NothingHeld(w)
  {
    if NoneFetching(w) && NothingHeld(w) {
      forall moves, c | IsRun(w, moves) && c in Run(w, moves).callers && c !in w.callers && Run(w, moves).callers[c].Answered?
        ensures Fresh(w, Ended(moves), Run(w, moves).callers[c].check, Run(w, moves).callers[c].v)
      {
        AnswerFits(w, moves, c);
      }
    } else {
      var f, ended := FlagRises(w);
      var d: Verdict, t: nat := Verdict(false, 0), 0;
      if !NothingHeld(w) {
        d :| Held(w, d);
      } else {
        t :| t in w.cache.threads && w.cache.threads[t].pc.Fetching?;
      }
      var g, ended', d' := OldAnswers(w, f, ended, d, t);
      AnswerIsNotFresh(w, g, ended', d');
    }
  }

  /** The two steps at the end of a verification. */
  function Finished(w: World): World {
    After(After(w, Cache(CacheFlight.Invalidate(KEY))), Lower)
  }

  /** Exactly: after a finished verification, whatever was cached before, every call that begins later is
      answered by a check that begins later if and only if no flight of the cache is fetching a verdict or
      about to store or deliver one. */
  lemma FinishedIsFreshIff(w: World)
    requires Sound(w)
    ensures AllFresh(Finished(w)) <==>
            forall t :: t in w.cache.threads ==>
              var pc := w.cache.threads[t].pc; !pc.Fetching? && !(HandsOn(pc) && Carried(pc).Some?)
    ensures !Finished(w).seen
  {
    var m := Cache(CacheFlight.Invalidate(KEY));
    var f := Finished(w);
    SoundStep(w, m);
    SoundStep(After(w, m), Lower);
    CacheFlight.EvictionForgets(w.cache, KEY, KEY);
    assert KEY !in f.cache.store && f.cache.threads == w.cache.threads;
    if t :| t in w.cache.threads && HandsOn(w.cache.threads[t].pc) && Carried(w.cache.threads[t].pc).Some? {
      assert Carries(f.cache.threads[t].pc, Carried(w.cache.threads[t].pc).value);
      assert Held(f, Carried(w.cache.threads[t].pc).value);
    }
    FreshIff(f);
  }

  ghost predicate HeldAs(w: World, v: bool) {
    exists d :: Held(w, d) && d.v == v
  }

  lemma ConfirmedWhereClean(w: World)
    requires Sound(w) && !w.seen && NoneFetching(w)
    requires !HeldAs(w, false) && !(Raising(w) && HeldAs(w, true))
    ensures AllConfirmed(w)
  {
    forall moves, c | IsRun(w, moves) && c in Run(w, moves).callers && c !in w.callers && Run(w, moves).callers[c].Answered?
      ensures Confirmed(w, Ended(moves), Run(w, moves).callers[c].v)
    {
      AnswerFits(w, moves, c);
    }
  }

  /** An older call raises the flag. */
  lemma OldCallRaises(w: World) returns (f: World, ended: set<(Check, bool)>)
    requires Raising(w)
    ensures Reaches(w, f, ended) && f.seen && f.cache == w.cache && w.callers.Keys <= f.callers.Keys
    ensures forall check, v :: (check, v) in ended ==> Begun(w, check)
  {
    var c :| c in w.callers && (w.callers[c] == Checking || w.callers[c] == AtStore(true));
    ReachesSelf(w);
    var f1 := w;
    ended := {};
    if w.callers[c] == Checking {
      f1 := CallEnds(w, w, {}, c, true);
      ended := {} + {(OfCall(c), true)};
    }
    f := CallStores(w, f1, ended, c);
  }

  lemma DoubtWhereDirty(w: World)
    requires Sound(w) && (HeldAs(w, false) || !NoneFetching(w) || (Raising(w) && HeldAs(w, true)))
    ensures !AllConfirmed(w)
  {
    var f: World, ended: set<(Check, bool)>;
    var d: Verdict, t: nat := Verdict(false, 0), 0;
    if HeldAs(w, false) {
      f, ended := FlagRises(w);
      d :| Held(w, d) && !d.v;
    } else if !NoneFetching(w) {
      f, ended := FlagRises(w);
      t :| t in w.cache.threads && w.cache.threads[t].pc.Fetching?;
      assert !Held(w, d);
    } else {
      f, ended := OldCallRaises(w);
      d :| Held(w, d) && d.v;
    }
    var g, ended', d' := OldAnswers(w, f, ended, d, t);
    assert !Confirmed(w, ended', d'.v);
    AnswerIsNotFresh(w, g, ended', d');
  }

  /** Exactly: when a verification has ended, no later call gets a verdict that no check since has found, if
      and only if at that moment the cache is not fetching, neither holds nor is about to hand out false,
      and does so with true only while no older call is in its own check or about to raise the flag. */
  lemma ConfirmedIff(w: World)
    requires Sound(w) && !w.seen
    ensures AllConfirmed(w) <==> NoneFetching(w) && !HeldAs(w, false) && !(Raising(w) && HeldAs(w, true))
  {
    if NoneFetching(w) && !HeldAs(w, false) && !(Raising(w) && HeldAs(w, true)) {
      ConfirmedWhereClean(w);
    } else {
      DoubtWhereDirty(w);
    }
  }

  // ---------------------------------------------------------------- a run that ends so

  /** Two calls find the flag down and the device trusted; one has raised the flag, the other is about to. */
  lemma TwoCheck(ttl: nat) returns (f: World, ended: set<(Check, bool)>)
    ensures Reaches(Start(ttl, 0), f, ended)
    ensures f == World(true, CacheFlight.Init(ttl, 0), map[0 := AtStore(true), 1 := Answered(true, OfCall(1))])
  {
    var w := Start(ttl, 0);
    ReachesSelf(w);
    var f1 := CallChecks(w, w, {}, 0, true);
    var f2 := CallChecks(w, f1, {} + {(OfCall(0), true)}, 1, true);
    ended := {} + {(OfCall(0), true)} + {(OfCall(1), true)};
    f := CallStores(w, f2, ended, 1);
  }

  /** A cold cache leads its one caller to the check. */
  lemma ColdLook(s: CacheFlight.State, t: nat)
    requires At(s.threads, t) == Some(CacheFlight.Thread(KEY, CacheFlight.AtDo(CacheFlight.Miss), None))
    requires KEY !in s.store && KEY !in s.flights
    ensures var s1 := CacheFlight.Apply(s, CacheFlight.Enter(t));
      && CacheFlight.Enabled(s1, CacheFlight.LookAgain(t)) && s1.store == s.store
      && var s2 := CacheFlight.Apply(s1, CacheFlight.LookAgain(t));
         At(s2.threads, t) == Some(CacheFlight.Thread(KEY, CacheFlight.Fetching(CacheFlight.Miss), None))
  {
  }

  /** A third finds the flag up and nothing cached. */
  lemma ThirdLooks(ttl: nat) returns (f: World, ended: set<(Check, bool)>, t: nat)
    ensures Reaches(Start(ttl, 0), f, ended) && 0 in f.callers && f.callers[0] == AtStore(true)
    ensures At(f.cache.threads, t) == Some(CacheFlight.Thread(KEY, CacheFlight.AtDo(CacheFlight.Miss), None))
    ensures KEY !in f.cache.store && KEY !in f.cache.flights
  {
    var f0, f1, c;
    f0, ended := TwoCheck(ttl);
    f1, c, t := CallEnters(Start(ttl, 0), f0, ended);
    var u := FreshId(f1.cache.threads);
    LookMisses(f1.cache, t, u);
    f := CacheMoves(Start(ttl, 0), f1, ended, CacheFlight.Look(t, u));
  }

  /** It is about to store what its own check found. */
  lemma ThirdFetches(ttl: nat) returns (f: World, ended: set<(Check, bool)>, t: nat)
    ensures Reaches(Start(ttl, 0), f, ended) && 0 in f.callers && f.callers[0] == AtStore(true)
    ensures Held(f, Verdict(true, t)) && KEY !in f.cache.store
  {
    var f0;
    f0, ended, t := ThirdLooks(ttl);
    ColdLook(f0.cache, t);
    var f1 := CacheMoves(Start(ttl, 0), f0, ended, CacheFlight.Enter(t));
    var f2 := CacheMoves(Start(ttl, 0), f1, ended, CacheFlight.LookAgain(t));
    f := CacheChecks(Start(ttl, 0), f2, ended, t, true);
    ended := ended + {(OfGoroutine(t), true)};
  }

  /** Then a verification ends. So there is a run after which a later call is answered by a check from before
      it, and with a verdict that no later check has found, although the cache was invalidated and the flag
      lowered. */
  lemma OverlapIsStale(ttl: nat) returns (w: World, ended: set<(Check, bool)>)
    ensures Reaches(Start(ttl, 0), w, ended) && KEY !in w.cache.store && !w.seen && !AllFresh(w) && !AllConfirmed(w)
  {
    var start := Start(ttl, 0);
    var f, t;
    f, ended, t := ThirdFetches(ttl);
    var u :| u in f.cache.threads && Carries(f.cache.threads[u].pc, Verdict(true, t));
    var f1 := CacheMoves(start, f, ended, CacheFlight.Invalidate(KEY));
    ReachesQuietly(start, f1, ended, Lower);
    w := After(f1, Lower);
    assert u in w.cache.threads && Carries(w.cache.threads[u].pc, Verdict(true, t));
    assert Held(w, Verdict(true, t)) && w.callers[0] == AtStore(true);
    ReachesSound(start, w, ended);
    FreshIff(w);
    ConfirmedIff(w);
  }

  // ---------------------------------------------------------------- over whole runs

  /** In every run an answered call has the verdict of the check that it names: a true answer needs a check
      that found the device trusted, in this call or in the cache. */
  lemma AnswersAreEarned(ttl: nat, now: int, moves: seq<Move>, c: nat)
    requires IsRun(Start(ttl, now), moves) && c in Run(Start(ttl, now), moves).callers
    requires Run(Start(ttl, now), moves).callers[c].Answered?
    ensures var a := Run(Start(ttl, now), moves).callers[c]; (a.check, a.v) in Ended(moves)
  {
    FreshIff(Start(ttl, now));
    assert c !in Start(ttl, now).callers;
  }

  predicate HoldsFalse(w: World) {
    KEY in w.cache.store && !IsTrue(w.cache.store[KEY].value)
  }

  /** The check of goroutine `t` ends without an error and without trust: the device was missing. */
  predicate FindsMissing(m: Move, t: nat) {
    m.Cache? && m.step.FetchOk? && m.step.t == t && !IsTrue(m.step.v)
  }

  predicate StoresFor(m: Move, t: nat) {
    m.Cache? && m.step.Store? && m.step.t == t
  }

  ghost predicate FoundMissing(moves: seq<Move>, t: nat) {
    exists i :: 0 <= i < |moves| && FindsMissing(moves[i], t)
  }

  ghost predicate MissingStored(moves: seq<Move>) {
    exists i, j, t :: 0 <= i < j < |moves| && FindsMissing(moves[i], t) && StoresFor(moves[j], t)
  }

  predicate StoringFalse(pc: CacheFlight.Pc) {
    pc.Storing? && !IsTrue(pc.e.value)
  }

  predicate PastStore(pc: CacheFlight.Pc) {
    !BeforeCheck(pc) && !pc.Fetching? && !pc.Storing?
  }

  /** A goroutine stores false exactly after its check found the device missing. */
  ghost predicate MissingFits(moves: seq<Move>, s: CacheFlight.State) {
    && (forall t :: t in s.threads && StoringFalse(s.threads[t].pc) ==> FoundMissing(moves, t))
    && (forall t :: FoundMissing(moves, t) ==> t in s.threads && (StoringFalse(s.threads[t].pc) || PastStore(s.threads[t].pc)))
  }

  lemma FoundMore(moves: seq<Move>, m: Move, t: nat)
    ensures FoundMissing(moves + [m], t) <==> FoundMissing(moves, t) || FindsMissing(m, t)
  {
    if FoundMissing(moves, t) {
      var i :| 0 <= i < |moves| && FindsMissing(moves[i], t);
      assert (moves + [m])[i] == moves[i];
    } else if FindsMissing(m, t) {
      assert (moves + [m])[|moves|] == m;
    }
  }

  lemma CacheMissingFits(moves: seq<Move>, s: CacheFlight.State, step: CacheFlight.Step, t: nat)
    requires CacheFlight.Exclusive(s) && CacheFlight.Enabled(s, step) && MissingFits(moves, s)
    ensures var s' := CacheFlight.Apply(s, step);
      && (t in s'.threads && StoringFalse(s'.threads[t].pc) ==> FoundMissing(moves, t) || FindsMissing(Cache(step), t))
      && (FoundMissing(moves, t) || FindsMissing(Cache(step), t) ==>
            t in s'.threads && (StoringFalse(s'.threads[t].pc) || PastStore(s'.threads[t].pc)))
  {
    if t in CacheFlight.Apply(s, step).threads {
      CacheFlight.ThreadAfter(s, step, t);
    }
  }

  lemma MissingMore(moves: seq<Move>, w: World, m: Move)
    requires Sound(w) && Enabled(w, m) && MissingFits(moves, w.cache)
    ensures MissingFits(moves + [m], After(w, m).cache)
  {
    var step := if m.LoadFlag? then CacheFlight.Call(m.t, KEY) else if m.Cache? then m.step else CacheFlight.Tick(0);
    forall t ensures FoundMissing(moves + [m], t) <==> FoundMissing(moves, t) || FindsMissing(m, t) {
      FoundMore(moves, m, t);
    }
    forall t
      ensures var s' := CacheFlight.Apply(w.cache, step);
        && (t in s'.threads && StoringFalse(s'.threads[t].pc) ==> FoundMissing(moves, t) || FindsMissing(Cache(step), t))
        && (FoundMissing(moves, t) || FindsMissing(Cache(step), t) ==>
              t in s'.threads && (StoringFalse(s'.threads[t].pc) || PastStore(s'.threads[t].pc)))
    {
      CacheMissingFits(moves, w.cache, step, t);
    }
  }

  lemma {:induction false} RunFront(w: World, moves: seq<Move>, m: Move)
    requires IsRun(w, moves + [m])
    ensures IsRun(w, moves) && Enabled(Run(w, moves), m)
    decreases |moves|
  {
    if moves == [] {
      assert ([] + [m])[0] == m;
    } else {
      assert (moves + [m])[1..] == moves[1..] + [m];
      RunFront(After(w, moves[0]), moves[1..], m);
    }
  }

  /** False is held after the run, or was at some point before. */
  ghost predicate EverHoldsFalse(w: World, moves: seq<Move>) {
    exists n :: 0 <= n <= |moves| && IsRun(w, moves[..n]) && HoldsFalse(Run(w, moves[..n]))
  }

  lemma EverMore(w: World, front: seq<Move>, m: Move)
    requires IsRun(w, front) && Enabled(Run(w, front), m)
    ensures EverHoldsFalse(w, front + [m]) <==> EverHoldsFalse(w, front) || HoldsFalse(After(Run(w, front), m))
  {
    var moves := front + [m];
    RunMore(w, front, m);
    assert moves[..|moves|] == moves;
    forall n | 0 <= n <= |front| ensures moves[..n] == front[..n] {}
    if EverHoldsFalse(w, front) {
      var n :| 0 <= n <= |front| && IsRun(w, front[..n]) && HoldsFalse(Run(w, front[..n]));
      assert moves[..n] == front[..n];
    }
  }

  lemma StoredMore(front: seq<Move>, m: Move)
    ensures MissingStored(front + [m]) <==> MissingStored(front) || exists t :: FoundMissing(front, t) && StoresFor(m, t)
  {
    var moves := front + [m];
    if MissingStored(front) {
      var i, j, t :| 0 <= i < j < |front| && FindsMissing(front[i], t) && StoresFor(front[j], t);
      assert FindsMissing(moves[i], t) && StoresFor(moves[j], t);
    }
    if t :| FoundMissing(front, t) && StoresFor(m, t) {
      var i :| 0 <= i < |front| && FindsMissing(front[i], t);
      assert FindsMissing(moves[i], t) && StoresFor(moves[|front|], t);
    }
    if MissingStored(moves) && !MissingStored(front) {
      var i, j, t :| 0 <= i < j < |moves| && FindsMissing(moves[i], t) && StoresFor(moves[j], t);
      assert FindsMissing(front[i], t);
      assert j == |front|;
    }
  }

  /** The last move makes the cache hold false exactly if it stores what a check found missing. */
  lemma StoreIsFalseIff(moves: seq<Move>, w: World, m: Move)
    requires Sound(w) && Enabled(w, m) && MissingFits(moves, w.cache) && !HoldsFalse(w)
    ensures HoldsFalse(After(w, m)) <==> exists t :: FoundMissing(moves, t) && StoresFor(m, t)
  {
    if m.Cache? && m.step.Store? {
      assert StoresFor(m, m.step.t);
    }
  }

  lemma {:induction false} FalseIsCached(w: World, moves: seq<Move>)
    requires Sound(w) && w.cache.threads == map[] && !HoldsFalse(w) && IsRun(w, moves)
    ensures MissingFits(moves, Run(w, moves).cache)
    ensures EverHoldsFalse(w, moves) <==> MissingStored(moves)
    decreases |moves|
  {
    if moves != [] {
      var n := |moves| - 1;
      var front, m := moves[..n], moves[n];
      assert moves == front + [m];
      RunFront(w, front, m);
      RunMore(w, front, m);
      FalseIsCached(w, front);
      SoundRun(w, front);
      MissingMore(front, Run(w, front), m);
      EverMore(w, front, m);
      StoredMore(front, m);
      if !EverHoldsFalse(w, front) {
        assert front[..|front|] == front;
        StoreIsFalseIff(front, Run(w, front), m);
      }
    }
  }

  /** Exactly: in a run of overlapping calls the cache comes to hold false if and only if a goroutine of the
      cache finds the device missing and goes on to store that. A call that checks for itself never does it. */
  lemma FalseIsCachedIff(ttl: nat, now: int, moves: seq<Move>)
    requires IsRun(Start(ttl, now), moves)
    ensures EverHoldsFalse(Start(ttl, now), moves) <==> MissingStored(moves)
  {
    FalseIsCached(Start(ttl, now), moves);
  }
}
