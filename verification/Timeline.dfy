/** The state of one room's timeline and the atomic sections that change it. */
module Timeline {
  import opened Wrappers
  import opened Messages
  import opened SortedTree

  /** What every event of the room carries in the clear. `id` is the hash class of the event ID,
      `redactedBecause` the reason of the redaction that the server attaches to a redacted event. */
  datatype EventHead = EventHead(id: string, ts: int, sender: string, redactedBecause: Option<string>)

  datatype State = State(
    room: string,
    tree: Tree,
    index: map<string, Message>,              // messagesMap
    nonces: map<string, Message>,             // what an event with that nonce replaces
    raw: map<string, EventHead>,              // rawEncryptedEvents
    pendingRedactions: map<string, string>)

  /** What listeners are told. */
  datatype TreeEvent =
    | AddEvent(msg: Message, neighbors: Neighbors)
    | UpdateEvent(msg: Message, updateNonce: string, neighbors: Neighbors)
    | RemoveEvent(msg: Message)

  function Empty(room: string): State {
    State(room, [], map[], map[], map[], map[])
  }

  // ---------------------------------------------------------------- Set

  predicate Replaces(s: State, m: Message) {
    m.nonce != "" && m.nonce in s.nonces
  }

  predicate IsPending(m: Message) {
    m.nonce == "" && IsPlaceholder(m.id)
  }

  /** The message as `Set` stores it. */
  function Stamped(s: State, m: Message): Message {
    m.(roomID := s.room, nonce := "")
  }

  /** The nonce handling at the start of `Set`. */
  function Cleared(s: State, m: Message): State {
    if Replaces(s, m) then
      var e := s.nonces[m.nonce];
      s.(tree := Drop(s.tree, e), index := s.index - {e.id}, nonces := s.nonces - {m.nonce})
    else if IsPending(m) then
      s.(nonces := s.nonces[m.id := Stamped(s, m)])
    else s
  }

  function Stored(s: State, m: Message): State {
    s.(tree := Put(s.tree, m), index := s.index[m.id := m])
  }

  /** What `Set` returns and announces: the stored message after a waiting redaction, if there is one. */
  function Settled(s: State, m: Message): Message {
    if m.id in s.pendingRedactions then RedactedFrom(Stamped(s, m), s.pendingRedactions[m.id]) else Stamped(s, m)
  }

  /** `MessageTree.Set`. The nonce table holds a pointer to the message of a placeholder, so a
      waiting redaction shows there as well. */
  function SetState(s: State, m: Message): State {
    var c := Stored(Cleared(s, m), Stamped(s, m));
    if m.id in s.pendingRedactions then
      var r := Settled(s, m);
      Stored(c, r).(
        pendingRedactions := c.pendingRedactions - {m.id},
        nonces := if IsPending(m) then c.nonces[m.id := r] else c.nonces)
    else c
  }

  /** `Set` neither reads nor writes the raw events. */
  lemma SetIgnoresRaw(s: State, raw: map<string, EventHead>, m: Message)
    ensures SetState(s.(raw := raw), m) == SetState(s, m).(raw := raw)
  {
    var s' := s.(raw := raw);
    var c, c' := Cleared(s, m), Cleared(s', m);
    assert c' == c.(raw := raw);
    assert Stored(c', Stamped(s, m)) == Stored(c, Stamped(s, m)).(raw := raw);
  }

  function SetEvent(s: State, m: Message): TreeEvent {
    var m' := Settled(s, m);
    var n := NeighborsOf(SetState(s, m).tree, m');
    if Replaces(s, m) then UpdateEvent(m', s.nonces[m.nonce].id, n)
    else if Has(s.tree, m') then UpdateEvent(m', "", n)
    else AddEvent(m', n)
  }

  // ---------------------------------------------------------------- atomic sections

  /** One critical section, or one access to a concurrent map. */
  datatype Action =
    | DoSet(m: Message)
    | WriteBack(m: Message)     // the locked part of fetchAndApplyEmbeds
    | DropTree(m: Message)      // DeleteMessage
    | TakeIndex(id: string)     // messagesMap.LoadAndDelete
    | StoreRaw(e: EventHead)
    | DropRaw(id: string)
    | StoreNonce(m: Message)    // nonces.Store under the identifier of m

  function Act(s: State, a: Action): State {
    match a
    case DoSet(m) => SetState(s, m)
    case WriteBack(m) => Stored(s, m)
    case DropTree(m) => s.(tree := Drop(s.tree, m))
    case TakeIndex(id) => s.(index := s.index - {id})
    case StoreRaw(e) => s.(raw := s.raw[e.id := e])
    case DropRaw(id) => s.(raw := s.raw - {id})
    case StoreNonce(m) => s.(nonces := s.nonces[m.id := m])
  }

  function Emit(s: State, a: Action): seq<TreeEvent> {
    match a
    case DoSet(m) => [SetEvent(s, m)]
    case WriteBack(m) => [UpdateEvent(m, "", Neighbors(None, None))]
    case DropTree(m) => [RemoveEvent(m)]
    case _ => []
  }

  function ActAll(s: State, actions: seq<Action>): State
    decreases |actions|
  {
    if actions == [] then s else ActAll(Act(s, actions[0]), actions[1..])
  }

  function EmitAll(s: State, actions: seq<Action>): seq<TreeEvent>
    decreases |actions|
  {
    if actions == [] then [] else Emit(s, actions[0]) + EmitAll(Act(s, actions[0]), actions[1..])
  }

  lemma ActCons(s: State, a: Action, p: seq<Action>)
    ensures ActAll(s, [a] + p) == ActAll(Act(s, a), p)
    ensures ActAll(s, [a]) == Act(s, a)
  {
  }

  lemma EmitCons(s: State, a: Action, p: seq<Action>)
    ensures EmitAll(s, [a] + p) == Emit(s, a) + EmitAll(Act(s, a), p)
    ensures EmitAll(s, [a]) == Emit(s, a)
  {
  }

  lemma ActTwo(s: State, a: Action, b: Action)
    ensures ActAll(s, [a, b]) == Act(Act(s, a), b)
  {
    assert [a, b] == [a] + [b];
    ActCons(s, a, [b]);
    ActCons(Act(s, a), b, []);
  }

  lemma ActFront(s: State, a: Action, b: Action, p: seq<Action>)
    ensures ActAll(s, [a, b] + p) == ActAll(Act(Act(s, a), b), p)
  {
  }

  /** Two sections that announce nothing, then the rest. */
  lemma QuietThen(s: State, a: Action, b: Action, p: seq<Action>)
    requires Emit(s, a) == [] && Emit(Act(s, a), b) == []
    ensures ActAll(s, [a, b] + p) == ActAll(Act(Act(s, a), b), p)
    ensures EmitAll(s, [a, b] + p) == EmitAll(Act(Act(s, a), b), p)
  {
    ActFront(s, a, b, p);
    EmitCons(s, a, [b] + p);
    EmitCons(Act(s, a), b, p);
    assert [a] + ([b] + p) == [a, b] + p;
  }

  lemma ActThree(s: State, a: Action, b: Action, c: Action)
    ensures ActAll(s, [a, b, c]) == Act(Act(Act(s, a), b), c)
  {
    assert [a, b, c] == [a] + [b, c];
    ActCons(s, a, [b, c]);
    ActTwo(Act(s, a), b, c);
  }

  lemma {:induction false} ActAllAppend(s: State, p: seq<Action>, q: seq<Action>)
    ensures ActAll(s, p + q) == ActAll(ActAll(s, p), q)
    decreases |p|
  {
    if p == [] {
      assert p + q == q;
    } else {
      assert (p + q)[1..] == p[1..] + q;
      ActAllAppend(Act(s, p[0]), p[1..], q);
    }
  }

  // ---------------------------------------------------------------- hypotheses and invariants

  /** The instant an identifier stands for: an event ID determines its timestamp. */
  type Clock = string -> int

  /** The part of the invariant that holds between any two atomic sections. */
  ghost predicate Clocked(s: State, clock: Clock) {
    && Sorted(s.tree)
    && (forall x :: x in s.tree ==> x.ts == clock(x.id))
    && (forall k :: k in s.nonces ==> s.nonces[k].id == k && s.nonces[k].ts == clock(k))
    && s.pendingRedactions == map[]
  }

  predicate ActionFits(a: Action, clock: Clock) {
    match a
    case DoSet(m) => m.ts == clock(m.id)
    case WriteBack(m) => m.ts == clock(m.id)
    case DropTree(m) => m.ts == clock(m.id)
    case StoreNonce(m) => m.ts == clock(m.id)
    case _ => true
  }

  /** What `Set` does to the tree, as a set: the replaced placeholder goes, `m` comes in place of
      whatever had its key. */
  lemma SetTree(s: State, m: Message)
    requires Sorted(s.tree) && s.pendingRedactions == map[]
    ensures var t := SetState(s, m).tree;
      && Sorted(t)
      && (forall x :: x in t <==>
           x == Stamped(s, m)
           || (x in s.tree && !SameKey(x, m) && !(Replaces(s, m) && SameKey(x, s.nonces[m.nonce]))))
  {
    if Replaces(s, m) {
      DropSpec(s.tree, s.nonces[m.nonce]);
    }
    PutSpec(Cleared(s, m).tree, Stamped(s, m));
  }

  lemma ClockedStep(s: State, a: Action, clock: Clock)
    requires Clocked(s, clock) && ActionFits(a, clock)
    ensures Clocked(Act(s, a), clock)
  {
    match a
    case DoSet(m) => SetTree(s, m);
    case WriteBack(m) => PutSpec(s.tree, m);
    case DropTree(m) => DropSpec(s.tree, m);
    case _ =>
  }

  /** The tree has at most one entry for an identifier, and `index` is exactly the map from
      identifiers to entries. */
  ghost predicate Match(t: Tree, index: map<string, Message>) {
    && (forall x :: x in t ==> x.id in index && index[x.id] == x)
    && (forall k :: k in index ==> index[k].id == k && index[k] in t)
  }

  ghost predicate Agree(s: State) {
    Match(s.tree, s.index)
  }

  /** Entries of the nonce table stand under their own identifier and find the entry they replace. */
  ghost predicate NoncesMatch(s: State) {
    forall k :: k in s.nonces ==>
      s.nonces[k].id == k && (k in s.index ==> s.index[k].ts == s.nonces[k].ts)
  }

  /** An entry that `Set` leaves alone although it has the identifier of `m`. */
  predicate Collides(s: State, m: Message) {
    m.id in s.index && !(Replaces(s, m) && m.nonce == m.id) && s.index[m.id].ts != m.ts
  }

  lemma MatchStep(t: Tree, index: map<string, Message>, t': Tree, index': map<string, Message>,
                  m: Message, gone: set<string>)
    requires Match(t, index)
    requires forall x :: x in t' <==> x == m || (x in t && x.id != m.id && x.id !in gone)
    requires index' == (index - gone)[m.id := m]
    ensures Match(t', index')
  {
  }

  /** With agreeing tables, having the key of `m` or of what it replaces is a matter of identifiers. */
  lemma KeyIsId(s: State, m: Message, x: Message)
    requires Agree(s) && NoncesMatch(s) && !Collides(s, m) && x in s.tree
    ensures !SameKey(x, m) && !(Replaces(s, m) && SameKey(x, s.nonces[m.nonce]))
            <==> x.id != m.id && !(Replaces(s, m) && x.id == m.nonce)
  {
  }

  /** The identifier whose entry `Set` replaces through the nonce table. */
  function Gone(s: State, m: Message): set<string> {
    if Replaces(s, m) then {m.nonce} else {}
  }

  /** What `Set` does to the maps. */
  lemma SetTables(s: State, m: Message)
    requires s.pendingRedactions == map[] && forall k :: k in s.nonces ==> s.nonces[k].id == k
    ensures var s' := SetState(s, m);
      && s'.index == (s.index - Gone(s, m))[m.id := Stamped(s, m)]
      && s'.nonces == (if IsPending(m) then s.nonces[m.id := Stamped(s, m)] else s.nonces - Gone(s, m))
      && s'.raw == s.raw && s'.room == s.room && s'.pendingRedactions == map[]
  {
  }

  lemma SetTreeById(s: State, m: Message, t: Tree)
    requires Sorted(s.tree) && s.pendingRedactions == map[]
    requires Agree(s) && NoncesMatch(s) && !Collides(s, m)
    requires t == SetState(s, m).tree
    ensures forall x :: x in t <==> x == Stamped(s, m) || (x in s.tree && x.id != m.id && x.id !in Gone(s, m))
  {
    SetTree(s, m);
    forall x | x in s.tree
      ensures !SameKey(x, m) && !(Replaces(s, m) && SameKey(x, s.nonces[m.nonce]))
              <==> x.id != m.id && x.id !in Gone(s, m)
    {
      KeyIsId(s, m, x);
    }
  }

  /** Index agreement after one `Set`, without any hypothesis on timestamps: it is kept exactly
      when no entry that stays has the identifier of `m` and another instant. */
  lemma SetAgreesIff(s: State, m: Message)
    requires Sorted(s.tree) && s.pendingRedactions == map[]
    requires Agree(s) && NoncesMatch(s)
    ensures Agree(SetState(s, m)) <==> !Collides(s, m)
  {
    if Collides(s, m) {
      SetTree(s, m);
      var t := SetState(s, m).tree;
      assert Stamped(s, m) in t && s.index[m.id] in t;
    } else {
      SetTreeById(s, m, SetState(s, m).tree);
      SetTables(s, m);
      MatchStep(s.tree, s.index, SetState(s, m).tree, SetState(s, m).index, Stamped(s, m), Gone(s, m));
    }
  }
}
