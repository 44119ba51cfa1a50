/** The session store: a write-through cache of session objects over the system keyring, the list of
    known users and the last user. */
module SessionStore {
  import opened Wrappers

  datatype SessionData = SessionData(
    userID: string, homeserver: string, identityserver: string, accessToken: string, refreshToken: string,
    pickleKey: string, recoveryKey: string, theme: string, sidebarOpen: bool, loggedIn: bool,
    deviceID: string, expiresInMs: int)

  /** A keyring entry: a session, losslessly encoded, or something that does not decode. */
  datatype Stored = Encoded(data: SessionData) | Corrupt

  type Edit = SessionData -> SessionData

  datatype State = State(
    keyring: map<string, Stored>,
    cache: map<string, SessionData>,
    known: seq<string>,                 // the known-users entry of the keyring
    lastUser: Option<string>,           // the global-settings entry of the keyring
    globalCache: Option<string>)

  datatype Answer = Found(data: SessionData) | NotFound | BadEncoding | WriteFailed | Done

  function Blank(userID: string): SessionData {
    SessionData(userID, "", "", "", "", "", "", "", false, false, "", 0)
  }

  // ---------------------------------------------------------------- operations

  function Lookup(s: State, u: string): Answer {
    if u in s.cache then Found(s.cache[u]) else Read(s.keyring, u)
  }

  /** The entry of a user as the keyring has it. */
  function Read(keyring: map<string, Stored>, u: string): Answer {
    if u !in keyring then NotFound else if keyring[u].Corrupt? then BadEncoding else Found(keyring[u].data)
  }

  /** `Get` keeps what it has read. */
  function Looked(s: State, u: string): State {
    match Lookup(s, u)
    case Found(d) => s.(cache := s.cache[u := d])
    case _ => s
  }

  /** What an update hands to the edit. */
  function Base(a: Answer, u: string): SessionData
    requires a.Found? || a.NotFound?
  {
    if a.Found? then a.data else Blank(u)
  }

  function AddKnown(known: seq<string>, u: string): seq<string> {
    if u in known then known else known + [u]
  }

  function RemoveKnown(known: seq<string>, u: string): seq<string> {
    if known == [] then [] else (if known[0] != u then [known[0]] else []) + RemoveKnown(known[1..], u)
  }

  /** `save` after a successful keyring write. */
  function Saved(s: State, d: SessionData): State {
    s.(keyring := s.keyring[d.userID := Encoded(d)],
       cache := s.cache[d.userID := d],
       known := AddKnown(s.known, d.userID),
       lastUser := Some(d.userID),
       globalCache := Some(d.userID))
  }

  /** `Update`: the edit works on the cached object itself, so it shows in the cache even when the
      keyring write fails. */
  function Updated(s: State, u: string, edit: Edit, writes: bool): State {
    var a := Lookup(s, u);
    if a.BadEncoding? then s
    else if !(a.Found? || a.NotFound?) then s
    else
      var d := edit(Base(a, u));
      var s1 := if a.Found? then s.(cache := s.cache[u := d]) else s;
      if writes then Saved(s1, d) else s1
  }

  /** An update is a look followed by the edit of what the look returned. */
  lemma UpdatedAfterLook(s: State, u: string, edit: Edit, writes: bool)
    requires !Lookup(s, u).BadEncoding?
    ensures var a, l := Lookup(s, u), Looked(s, u);
      (a.Found? || a.NotFound?)
      && var d := edit(Base(a, u));
         var s1 := if a.Found? then l.(cache := l.cache[u := d]) else l;
         Updated(s, u, edit, writes) == if writes then Saved(s1, d) else s1
  {
  }

  function UpdateAnswer(s: State, u: string, edit: Edit, writes: bool): Answer {
    var a := Lookup(s, u);
    if a.BadEncoding? then BadEncoding
    else if !(a.Found? || a.NotFound?) then a
    else if writes then Found(edit(Base(a, u))) else WriteFailed
  }

  function Deleted(s: State, u: string): State {
    s.(keyring := s.keyring - {u}, cache := s.cache - {u}, known := RemoveKnown(s.known, u))
  }

  // ---------------------------------------------------------------- transparency of the cache

  datatype Op =
    | Get(u: string)
    | Update(u: string, edit: Edit)         // also UpdateAndGet, whose answer it gives
    | Delete(u: string)
    | Forget(us: set<string>)               // the in-memory cache loses entries, as in a restart

  function After(s: State, op: Op): State {
    match op
    case Get(u) => Looked(s, u)
    case Update(u, edit) => Updated(s, u, edit, true)
    case Delete(u) => Deleted(s, u)
    case Forget(us) => s.(cache := s.cache - us, globalCache := None)
  }

  function AnswerOf(s: State, op: Op): Answer {
    match op
    case Get(u) => Lookup(s, u)
    case Update(u, edit) => UpdateAnswer(s, u, edit, true)
    case Delete(_) => Done
    case Forget(_) => Done
  }

  function Answers(s: State, ops: seq<Op>): seq<Answer>
    decreases |ops|
  {
    if ops == [] then [] else [AnswerOf(s, ops[0])] + Answers(After(s, ops[0]), ops[1..])
  }

  function AfterAll(s: State, ops: seq<Op>): State
    decreases |ops|
  {
    if ops == [] then s else AfterAll(After(s, ops[0]), ops[1..])
  }

  /** The reference: a store that has nothing but the keyring. */
  function PlainAfter(keyring: map<string, Stored>, op: Op): map<string, Stored> {
    match op
    case Update(u, edit) =>
      var a := Read(keyring, u);
      if a.Found? || a.NotFound? then
        var d := edit(Base(a, u));
        keyring[d.userID := Encoded(d)]
      else keyring
    case Delete(u) => keyring - {u}
    case _ => keyring
  }

  function PlainAnswer(keyring: map<string, Stored>, op: Op): Answer {
    match op
    case Get(u) => Read(keyring, u)
    case Update(u, edit) =>
      var a := Read(keyring, u);
      if a.Found? || a.NotFound? then Found(edit(Base(a, u))) else a
    case _ => Done
  }

  function PlainAnswers(keyring: map<string, Stored>, ops: seq<Op>): seq<Answer>
    decreases |ops|
  {
    if ops == [] then [] else [PlainAnswer(keyring, ops[0])] + PlainAnswers(PlainAfter(keyring, ops[0]), ops[1..])
  }

  /** What is cached is what the keyring has. */
  ghost predicate Coherent(s: State) {
    && (forall u :: u in s.cache ==> u in s.keyring && s.keyring[u] == Encoded(s.cache[u]))
    && (s.globalCache.Some? ==> s.globalCache == s.lastUser)
  }

  /** Sessions are stored under their own user. */
  ghost predicate Keyed(keyring: map<string, Stored>) {
    forall u :: u in keyring && keyring[u].Encoded? ==> keyring[u].data.userID == u
  }

  /** The edit of an operation keeps the user. */
  ghost predicate KeepsUser(op: Op) {
    op.Update? ==> forall d: SessionData :: op.edit(d).userID == d.userID
  }

  lemma LookupIsRead(s: State, u: string)
    requires Coherent(s)
    ensures Lookup(s, u) == Read(s.keyring, u)
  {
  }

  lemma OpIsTransparent(s: State, op: Op)
    requires Coherent(s) && Keyed(s.keyring) && KeepsUser(op)
    ensures Coherent(After(s, op)) && Keyed(After(s, op).keyring)
    ensures After(s, op).keyring == PlainAfter(s.keyring, op) && AnswerOf(s, op) == PlainAnswer(s.keyring, op)
  {
    if op.Get? || op.Update? {
      LookupIsRead(s, op.u);
      var a := Lookup(s, op.u);
      if op.Update? && (a.Found? || a.NotFound?) {
        assert op.edit(Base(a, op.u)).userID == op.u;
      }
    }
  }

  /** Any run of gets, updates and deletes answers as the keyring alone would, wherever the cache loses
      its entries. */
  lemma {:induction false} CacheIsTransparent(s: State, ops: seq<Op>)
    requires Coherent(s) && Keyed(s.keyring) && forall i :: 0 <= i < |ops| ==> KeepsUser(ops[i])
    ensures Answers(s, ops) == PlainAnswers(s.keyring, ops)
    ensures Coherent(AfterAll(s, ops))
    decreases |ops|
  {
    if ops != [] {
      OpIsTransparent(s, ops[0]);
      CacheIsTransparent(After(s, ops[0]), ops[1..]);
    }
  }

  /** An edit that changes the user breaks the cache exactly when the user had a stored session. */
  lemma UserMustStayIff(s: State, u: string, edit: Edit)
    requires Coherent(s) && Keyed(s.keyring) && !Read(s.keyring, u).BadEncoding?
    ensures Coherent(Updated(s, u, edit, true)) <==>
            u !in s.keyring || edit(Base(Read(s.keyring, u), u)).userID == u
  {
    LookupIsRead(s, u);
    var d, s' := edit(Base(Lookup(s, u), u)), Updated(s, u, edit, true);
    if u in s.keyring && d.userID != u {
      assert s'.cache[u] == d && s'.keyring[u] == s.keyring[u];
    }
  }

  /** A failed keyring write breaks the cache exactly when there was a session that the edit changed. */
  lemma FailedWriteIff(s: State, u: string, edit: Edit)
    requires Coherent(s) && !Read(s.keyring, u).BadEncoding?
    ensures Coherent(Updated(s, u, edit, false)) <==>
            u !in s.keyring || edit(Base(Read(s.keyring, u), u)) == Base(Read(s.keyring, u), u)
  {
  }

  /** The keyring is read at most once: after a get or an update that found or stored a session of the user,
      and any operations but deletions of it and losses of its entry, the cache has a session for the user
      and answers whatever the keyring holds. */
  lemma {:induction false} StaysCached(s: State, u: string, ops: seq<Op>, keyring: map<string, Stored>)
    requires u in s.cache
    requires forall i :: 0 <= i < |ops| ==> ops[i] != Delete(u) && (ops[i].Forget? ==> u !in ops[i].us)
    ensures var f := AfterAll(s, ops);
            u in f.cache && Lookup(f.(keyring := keyring), u) == Found(f.cache[u])
    decreases |ops|
  {
    if ops != [] {
      StaysCached(After(s, ops[0]), u, ops[1..], keyring);
    }
  }

  /** A look that finds a session, and an update that stores one under its user, put it in the cache. */
  lemma FoundIsCached(s: State, u: string, edit: Edit)
    ensures Lookup(s, u).Found? ==> At(After(s, Get(u)).cache, u) == Some(Lookup(s, u).data)
    ensures var a := UpdateAnswer(s, u, edit, true);
            a.Found? ==> At(After(s, Update(u, edit)).cache, a.data.userID) == Some(a.data)
                         && At(After(s, Update(u, edit)).keyring, a.data.userID) == Some(Encoded(a.data))
  {
  }

  /** The first update of a user starts from a session that has nothing but the user. */
  lemma FirstUpdateIsBlank(s: State, u: string, edit: Edit)
    requires u !in s.cache && u !in s.keyring
    ensures UpdateAnswer(s, u, edit, true) == Found(edit(SessionData(u, "", "", "", "", "", "", "", false, false, "", 0)))
  {
  }

  // ---------------------------------------------------------------- known users

  ghost predicate NoRepeats(known: seq<string>) {
    forall i, j :: 0 <= i < j < |known| ==> known[i] != known[j]
  }

  /** The known users are exactly those with a stored session, each once. */
  ghost predicate KnownMatch(s: State) {
    NoRepeats(s.known) && forall u :: u in s.known <==> u in s.keyring
  }

  lemma {:induction false} RemoveKnownItems(known: seq<string>, u: string)
    ensures forall v :: v in RemoveKnown(known, u) <==> v in known && v != u
    ensures NoRepeats(known) ==> NoRepeats(RemoveKnown(known, u))
  {
    if known != [] {
      var tail := RemoveKnown(known[1..], u);
      RemoveKnownItems(known[1..], u);
      assert known == [known[0]] + known[1..];
      if NoRepeats(known) {
        forall i, j | 0 <= i < j < |known[1..]| ensures known[1..][i] != known[1..][j] {
          assert known[i + 1] != known[j + 1];
        }
        forall v | v in tail ensures v != known[0] {
          var j :| 0 <= j < |known[1..]| && known[1..][j] == v;
          assert known[j + 1] == v;
        }
        forall j | 0 <= j < |tail| ensures tail[j] != known[0] {
          assert tail[j] in tail;
        }
      }
    }
  }

  /** The known users stay in the order in which they were first saved: a new one comes last, and one that
      goes leaves the others in place. */
  lemma {:induction false} KnownKeepOrder(known: seq<string>, u: string, i: nat)
    requires NoRepeats(known)
    ensures u !in known ==> AddKnown(known, u) == known + [u] && RemoveKnown(known, u) == known
    ensures i < |known| && known[i] == u ==>
              AddKnown(known, u) == known && RemoveKnown(known, u) == known[..i] + known[i + 1..]
    decreases |known|
  {
    if known != [] {
      var tail := known[1..];
      assert NoRepeats(tail) by {
        forall j, k | 0 <= j < k < |tail| ensures tail[j] != tail[k] {
          assert known[j + 1] != known[k + 1];
        }
      }
      if known[0] == u {
        assert u !in tail;
      }
      KnownKeepOrder(tail, u, if i > 0 then i - 1 else 0);
      assert known == [known[0]] + tail;
      if 0 < i < |known| {
        assert known[..i] == [known[0]] + tail[..i - 1] && known[i + 1..] == tail[i..];
      }
    }
  }

  lemma OpKeepsKnown(s: State, op: Op)
    requires KnownMatch(s)
    ensures KnownMatch(After(s, op))
  {
    if op.Delete? {
      RemoveKnownItems(s.known, op.u);
    }
  }

  /** The user of the last save of a run, if it has one. */
  function LastSaved(s: State, ops: seq<Op>): Option<string>
    decreases |ops|
  {
    if ops == [] then None
    else
      var later := LastSaved(After(s, ops[0]), ops[1..]);
      if later.Some? then later
      else if ops[0].Update? && AnswerOf(s, ops[0]).Found? then Some(AnswerOf(s, ops[0]).data.userID)
      else None
  }

  /** After any run of operations the known users are exactly the users with a stored session, without
      repetition, and the last user is the last one saved. */
  lemma {:induction false} KnownUsersMatch(s: State, ops: seq<Op>)
    requires KnownMatch(s)
    ensures KnownMatch(AfterAll(s, ops))
    ensures AfterAll(s, ops).lastUser == if LastSaved(s, ops).Some? then LastSaved(s, ops) else s.lastUser
    decreases |ops|
  {
    if ops != [] {
      OpKeepsKnown(s, ops[0]);
      KnownUsersMatch(After(s, ops[0]), ops[1..]);
    }
  }

  // ---------------------------------------------------------------- the store with its objects

  /** A session in memory; callers and the cache share the object. */
  class Session {
    var data: SessionData

    constructor (data: SessionData)
      ensures this.data == data
    {
      this.data := data;
    }
  }

  class SessionStore {
    var keyring: map<string, Stored>
    var cache: map<string, Session>
    var known: seq<string>
    var lastUser: Option<string>
    var globalCache: Option<string>

    /** No two users share an object. */
    ghost predicate Valid()
      reads this
    {
      forall u, v :: u in cache && v in cache && u != v ==> cache[u] != cache[v]
    }

    ghost function Model(): State
      reads this, cache.Values
    {
      State(keyring, map u | u in cache :: cache[u].data, known, lastUser, globalCache)
    }

    method Get(u: string) returns (a: Answer, sess: Session?)
      requires Valid()
      modifies this`cache
      ensures Valid() && Model() == Looked(old(Model()), u) && a == Lookup(old(Model()), u)
      ensures a.Found? <==> sess != null
      ensures sess != null ==> u in cache && cache[u] == sess && sess.data == a.data
      ensures forall v :: v in cache && v != u ==> v in old(cache) && cache[v] == old(cache)[v]
      ensures u in cache ==> fresh(cache[u]) || (u in old(cache) && cache[u] == old(cache)[u])
    {
      if u in cache {
        sess := cache[u];
        a := Found(sess.data);
        assert Model().cache[u := sess.data] == Model().cache;
        return;
      }
      if u !in keyring {
        return NotFound, null;
      }
      match keyring[u]
      case Corrupt => return BadEncoding, null;
      case Encoded(d) =>
        sess := new Session(d);
        cache := cache[u := sess];
        a := Found(d);
    }

    method AddKnownUser(u: string)
      modifies this`known
      ensures known == AddKnown(old(known), u)
    {
      if u in known {
        return;
      }
      known := known + [u];
    }

    method RemoveKnownUser(u: string)
      modifies this`known
      ensures known == RemoveKnown(old(known), u)
    {
      var filtered := [];
      for i := 0 to |known|
        invariant known == old(known)
        invariant filtered + RemoveKnown(known[i..], u) == RemoveKnown(known, u)
      {
        if known[i] != u {
          filtered := filtered + [known[i]];
        }
      }
      known := filtered;
    }

    /** `writes` says whether the keyring takes the session. */
    method Save(sess: Session, writes: bool) returns (a: Answer)
      modifies this
      ensures writes ==> Model() == Saved(old(Model()), sess.data) && cache == old(cache)[sess.data.userID := sess]
      ensures !writes ==> unchanged(this)
      ensures a == if writes then Done else WriteFailed
    {
      if !writes {
        return WriteFailed;
      }
      var u := sess.data.userID;
      keyring := keyring[u := Encoded(sess.data)];
      cache := cache[u := sess];
      AddKnownUser(u);
      globalCache := Some(u);
      lastUser := globalCache;
      a := Done;
    }

    /** The edit, on the object that the caller holds: the cached one if the user was found. */
    method EditInPlace(u: string, sess: Session, found: bool, edit: Edit)
      requires Valid()
      requires if found then u in cache && cache[u] == sess else sess !in cache.Values
      modifies sess
      ensures sess.data == edit(old(sess.data))
      ensures Model() == if found then old(Model()).(cache := old(Model()).cache[u := sess.data]) else old(Model())
    {
      sess.data := edit(sess.data);
    }

    /** `UpdateAndGet`; `Update` is the same without the session in the answer. */
    method UpdateAndGet(u: string, edit: Edit, writes: bool) returns (a: Answer)
      requires Valid()
      modifies this, cache.Values
      ensures Model() == Updated(old(Model()), u, edit, writes)
      ensures a == UpdateAnswer(old(Model()), u, edit, writes)
      ensures (a.Found? && a.data.userID == u) || a.BadEncoding? ==> Valid()
    {
      var got, found := Get(u);
      if got.BadEncoding? {
        return BadEncoding;
      }
      UpdatedAfterLook(old(Model()), u, edit, writes);
      if found == null {
        var sess := new Session(Blank(u));
        a := EditAndSave(u, sess, false, edit, writes);
      } else {
        a := EditAndSave(u, found, true, edit, writes);
      }
    }

    method EditAndSave(u: string, sess: Session, found: bool, edit: Edit, writes: bool) returns (a: Answer)
      requires Valid()
      requires if found then u in cache && cache[u] == sess else sess !in cache.Values && u !in cache
      modifies this, sess
      ensures var d := edit(old(sess.data));
              var s1 := if found then old(Model()).(cache := old(Model()).cache[u := d]) else old(Model());
        && Model() == (if writes then Saved(s1, d) else s1)
        && a == (if writes then Found(d) else WriteFailed)
        && (d.userID == u ==> Valid())
    {
      EditInPlace(u, sess, found, edit);
      var saved := Save(sess, writes);
      a := if writes then Found(sess.data) else saved;
    }

    method Delete(u: string)
      requires Valid()
      modifies this
      ensures Valid() && Model() == Deleted(old(Model()), u)
    {
      keyring := keyring - {u};
      cache := cache - {u};
      RemoveKnownUser(u);
    }
  }
}
