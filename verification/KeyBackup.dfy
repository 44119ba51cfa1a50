/** Restoring Megolm sessions from the server-side backup, and backing them up. Encryption and session
    export are symbolic: only the right key opens, and importing an export gives the session back. */
module KeyBackup {
  import opened Wrappers

  const TWO_32 := 0x1_0000_0000

  newtype Index = i: int | 0 <= i < TWO_32

  /** An inbound group session; messages before `firstIndex` cannot be decrypted with it. */
  datatype GroupSession = GroupSession(
    id: string, senderKey: string, signingKey: string, chain: seq<string>, firstIndex: Index, secret: string)

  /** An exported session key, or a string that is none. */
  datatype SessionKey = SessionKey(id: string, index: Index, secret: string) | Malformed

  datatype BackupData = BackupData(senderKey: string, ed25519: string, chain: seq<string>, key: SessionKey)

  datatype Sealed = Sealed(backupKey: string, data: BackupData)

  /** A session as the server keeps it, under a claimed first index. */
  datatype KeyData = KeyData(firstMessageIndex: int, sessionData: Sealed)

  type Store = map<string, GroupSession>

  /** Go's conversion of an `int` to a `uint32`. */
  function Uint32(i: int): Index {
    (i % TWO_32) as Index
  }

  function Decrypt(sealed: Sealed, key: string): Option<BackupData> {
    if sealed.backupKey == key then Some(sealed.data) else None
  }

  function Import(d: BackupData): Option<GroupSession> {
    if d.key.Malformed? then None
    else Some(GroupSession(d.key.id, d.senderKey, d.ed25519, d.chain, d.key.index, d.key.secret))
  }

  function Export(s: GroupSession): SessionKey {
    SessionKey(s.id, s.firstIndex, s.secret)
  }

  // ---------------------------------------------------------------- one session

  /** The session that a backup entry yields when everything but the comparison goes well. */
  function Opened(kd: KeyData, key: string, unwritable: set<string>): Option<GroupSession> {
    match Decrypt(kd.sessionData, key)
    case None => None
    case Some(d) =>
      match Import(d)
      case None => None
      case Some(igs) => if igs.id in unwritable then None else Some(igs)
  }

  predicate Imports(prior: Option<GroupSession>, kd: KeyData, key: string, unwritable: set<string>) {
    Opened(kd, key, unwritable).Some?
    && !(prior.Some? && prior.value.firstIndex <= Uint32(kd.firstMessageIndex))
  }

  function Merge(prior: Option<GroupSession>, kd: KeyData, key: string, unwritable: set<string>): Option<GroupSession> {
    if Imports(prior, kd, key, unwritable) then Opened(kd, key, unwritable) else prior
  }

  /** The entry stands under the session's own identifier. */
  predicate Filed(sid: string, kd: KeyData, key: string) {
    Opened(kd, key, {}).Some? ==> Opened(kd, key, {}).value.id == sid
  }

  /** The entry claims the index it has. */
  predicate Honest(kd: KeyData, key: string) {
    Opened(kd, key, {}).Some? ==> Opened(kd, key, {}).value.firstIndex == Uint32(kd.firstMessageIndex)
  }

  /** An honest entry that opens leaves the smaller of the two first indexes. */
  lemma MergeIsMinimum(prior: Option<GroupSession>, kd: KeyData, key: string, unwritable: set<string>)
    requires Honest(kd, key) && Opened(kd, key, unwritable).Some?
    ensures var i := Opened(kd, key, unwritable).value.firstIndex;
            var m := Merge(prior, kd, key, unwritable);
            m.Some? && m.value.firstIndex == if prior.Some? && prior.value.firstIndex <= i then prior.value.firstIndex else i
  {
  }

  /** A claimed index counts modulo two to the 32nd: as it is if it fits, and -1 is the largest of all, which
      no stored session exceeds. */
  lemma ClaimsWrap(i: int, prior: GroupSession, kd: KeyData, key: string, unwritable: set<string>)
    ensures 0 <= i < 4_294_967_296 ==> Uint32(i) as int == i
    ensures Uint32(i + 4_294_967_296) == Uint32(i)
    ensures kd.firstMessageIndex == -1 ==> !Imports(Some(prior), kd, key, unwritable)
  {
  }

  // ---------------------------------------------------------------- one turn

  /** The store after one turn of the loop. The comparison looks under `sid`, the write goes where the
      opened session belongs. */
  function WithEntry(store: Store, sid: string, kd: KeyData, key: string, unwritable: set<string>): Store {
    if Imports(At(store, sid), kd, key, unwritable)
    then store[Opened(kd, key, unwritable).value.id := Opened(kd, key, unwritable).value]
    else store
  }

  ghost predicate SelfKeyed(store: Store) {
    forall k :: k in store ==> store[k].id == k
  }

  ghost predicate NeverWorse(before: Store, after: Store) {
    forall k :: k in before ==> k in after && after[k].firstIndex <= before[k].firstIndex
  }

  /** The entries that can take no message away: one that stands under its own identifier must claim at
      least the index before the one it has, a misfiled one must start at index 0. */
  predicate Harmless(sid: string, kd: KeyData, key: string, unwritable: set<string>) {
    match Opened(kd, key, unwritable)
    case None => true
    case Some(o) =>
      if o.id == sid then o.firstIndex as int <= Uint32(kd.firstMessageIndex) as int + 1 else o.firstIndex == 0
  }

  /** One turn raises the first index of no session of any store exactly for the harmless entries. */
  lemma TurnNeverWorseIff(sid: string, kd: KeyData, key: string, unwritable: set<string>)
    ensures (forall s :: SelfKeyed(s) ==> NeverWorse(s, WithEntry(s, sid, kd, key, unwritable)))
            <==> Harmless(sid, kd, key, unwritable)
  {
    if !Harmless(sid, kd, key, unwritable) {
      var o := Opened(kd, key, unwritable).value;
      var i: Index := if o.id == sid then Uint32(kd.firstMessageIndex) + 1 else 0;
      var s := map[o.id := o.(firstIndex := i)];
      assert SelfKeyed(s) && WithEntry(s, sid, kd, key, unwritable)[o.id] == o;
      assert o.id in s && !NeverWorse(s, WithEntry(s, sid, kd, key, unwritable));
    }
  }

  /** The same entry is imported a second time exactly if it was imported and is misfiled or claims a
      smaller index than it has. */
  lemma RestoredAgainIff(s: Store, sid: string, kd: KeyData, key: string, unwritable: set<string>)
    ensures Imports(At(WithEntry(s, sid, kd, key, unwritable), sid), kd, key, unwritable) <==>
            && Imports(At(s, sid), kd, key, unwritable)
            && var o := Opened(kd, key, unwritable).value; o.id != sid || o.firstIndex > Uint32(kd.firstMessageIndex)
  {
  }

  // ---------------------------------------------------------------- two turns

  /** Two entries that may be visited in either order. Unless one does not open, neither may look where the
      other writes, or both write under the identifier of one, which the comparison protects. */
  predicate Commute(a: string, kda: KeyData, b: string, kdb: KeyData, key: string, unwritable: set<string>) {
    var x, y := Opened(kda, key, unwritable), Opened(kdb, key, unwritable);
    || x == None || y == None
    || (x.value.id != b && y.value.id != a && (x.value.id != y.value.id || x == y))
    || (x.value.id == b && y.value.id == b && (x == y || x.value.firstIndex <= Uint32(kdb.firstMessageIndex)))
    || (x.value.id == a && y.value.id == a && (x == y || y.value.firstIndex <= Uint32(kda.firstMessageIndex)))
  }

  ghost predicate SameEitherWay(s: Store, a: string, kda: KeyData, b: string, kdb: KeyData,
                                key: string, unwritable: set<string>) {
    WithEntry(WithEntry(s, a, kda, key, unwritable), b, kdb, key, unwritable) ==
    WithEntry(WithEntry(s, b, kdb, key, unwritable), a, kda, key, unwritable)
  }

  lemma CommuteSuffices(s: Store, a: string, kda: KeyData, b: string, kdb: KeyData, key: string, unwritable: set<string>)
    requires a != b && Commute(a, kda, b, kdb, key, unwritable)
    ensures SameEitherWay(s, a, kda, b, kdb, key, unwritable)
  {
  }

  /** Stores that have all of `base`. */
  ghost predicate Extends(s: Store, base: Store) {
    forall k :: k in base ==> k in s && s[k] == base[k]
  }

  /** A store on which the order of two such entries shows, whatever else is in it: one without either, or
      one with a session that keeps the second entry out. */
  lemma OrderShows(a: string, kda: KeyData, b: string, kdb: KeyData, key: string, unwritable: set<string>, base: Store)
    returns (s: Store)
    requires a != b && !Commute(a, kda, b, kdb, key, unwritable)
    requires SelfKeyed(base) && a !in base && b !in base
    requires forall k :: k in base ==> Some(base[k]) != Opened(kda, key, unwritable) && Some(base[k]) != Opened(kdb, key, unwritable)
    ensures SelfKeyed(s) && Extends(s, base) && !SameEitherWay(s, a, kda, b, kdb, key, unwritable)
  {
    var x, y := Opened(kda, key, unwritable).value, Opened(kdb, key, unwritable).value;
    if x.id == b && y.id != b && x.firstIndex > Uint32(kdb.firstMessageIndex) {
      s := base[b := x.(firstIndex := 0)];
      assert WithEntry(s, b, kdb, key, unwritable) == s;
      assert WithEntry(s, a, kda, key, unwritable) == s[b := x];
      assert At(WithEntry(s[b := x], b, kdb, key, unwritable), y.id) == Some(y);
    } else if x.id != a && y.id == a && y.firstIndex > Uint32(kda.firstMessageIndex) {
      s := base[a := y.(firstIndex := 0)];
      assert WithEntry(s, a, kda, key, unwritable) == s;
      assert WithEntry(s, b, kdb, key, unwritable) == s[a := y];
      assert At(WithEntry(s[a := y], a, kda, key, unwritable), x.id) == Some(x);
    } else {
      s := base;
      var ab, ba := WithEntry(s[x.id := x], b, kdb, key, unwritable), WithEntry(s[y.id := y], a, kda, key, unwritable);
      assert WithEntry(s, a, kda, key, unwritable) == s[x.id := x];
      assert WithEntry(s, b, kdb, key, unwritable) == s[y.id := y];
      var keepsOut := x.id == b && x.firstIndex <= Uint32(kdb.firstMessageIndex);
      var keptOut := y.id == a && y.firstIndex <= Uint32(kda.firstMessageIndex);
      assert ab == if keepsOut then s[x.id := x] else s[x.id := x][y.id := y];
      assert ba == if keptOut then s[y.id := y] else s[y.id := y][x.id := x];
      assert At(ab, x.id) != At(ba, x.id) || At(ab, y.id) != At(ba, y.id);
    }
  }

  /** Exactly: two entries can be visited in either order, whatever is stored, if and only if they commute. */
  lemma TurnsCommuteIff(a: string, kda: KeyData, b: string, kdb: KeyData, key: string, unwritable: set<string>)
    requires a != b
    ensures (forall s :: SelfKeyed(s) ==> SameEitherWay(s, a, kda, b, kdb, key, unwritable))
            <==> Commute(a, kda, b, kdb, key, unwritable)
  {
    if Commute(a, kda, b, kdb, key, unwritable) {
      forall s: Store ensures SameEitherWay(s, a, kda, b, kdb, key, unwritable) {
        CommuteSuffices(s, a, kda, b, kdb, key, unwritable);
      }
    } else {
      var s := OrderShows(a, kda, b, kdb, key, unwritable, map[]);
    }
  }

  // ---------------------------------------------------------------- a room

  predicate Among(order: seq<string>, entries: map<string, KeyData>) {
    forall i :: 0 <= i < |order| ==> order[i] in entries
  }

  predicate Distinct(order: seq<string>) {
    forall i, j :: 0 <= i < j < |order| ==> order[i] != order[j]
  }

  /** The entries visited in this order. */
  function MergeAll(store: Store, entries: map<string, KeyData>, order: seq<string>, key: string, unwritable: set<string>): Store
    requires Among(order, entries)
    decreases |order|
  {
    if order == [] then store
    else MergeAll(WithEntry(store, order[0], entries[order[0]], key, unwritable), entries, order[1..], key, unwritable)
  }

  /** How many of them are imported. */
  function Imported(store: Store, entries: map<string, KeyData>, order: seq<string>, key: string, unwritable: set<string>): nat
    requires Among(order, entries)
    decreases |order|
  {
    if order == [] then 0
    else
      (if Imports(At(store, order[0]), entries[order[0]], key, unwritable) then 1 else 0) +
      Imported(WithEntry(store, order[0], entries[order[0]], key, unwritable), entries, order[1..], key, unwritable)
  }

  lemma {:induction false} MergeMore(s: Store, entries: map<string, KeyData>, order: seq<string>, sid: string,
                                     key: string, unwritable: set<string>)
    requires Among(order, entries) && sid in entries
    ensures var m := MergeAll(s, entries, order, key, unwritable);
      && MergeAll(s, entries, order + [sid], key, unwritable) == WithEntry(m, sid, entries[sid], key, unwritable)
      && Imported(s, entries, order + [sid], key, unwritable) ==
         Imported(s, entries, order, key, unwritable) + if Imports(At(m, sid), entries[sid], key, unwritable) then 1 else 0
    decreases |order|
  {
    if order == [] {
      assert [] + [sid] == [sid] && [sid][1..] == [];
    } else {
      assert (order + [sid])[1..] == order[1..] + [sid];
      MergeMore(WithEntry(s, order[0], entries[order[0]], key, unwritable), entries, order[1..], sid, key, unwritable);
    }
  }

  /** The order of a complete restore: every entry once. */
  ghost predicate Full(order: seq<string>, entries: map<string, KeyData>) {
    Among(order, entries) && Distinct(order) && forall sid :: sid in entries ==> sid in order
  }

  /** A session that cannot be written stays as it is, through any visits. */
  lemma {:induction false} UnwritableStays(s: Store, entries: map<string, KeyData>, order: seq<string>,
                                           key: string, unwritable: set<string>, k: string)
    requires Among(order, entries) && k in unwritable
    ensures At(MergeAll(s, entries, order, key, unwritable), k) == At(s, k)
    decreases |order|
  {
    if order != [] {
      UnwritableStays(WithEntry(s, order[0], entries[order[0]], key, unwritable), entries, order[1..], key, unwritable, k);
    }
  }

  // ---------------------------------------------------------------- entries kept out

  /** Sessions from index 0, which no entry can improve. */
  function Bar(keys: set<string>, secret: string): Store {
    map k | k in keys :: GroupSession(k, "", "", [], 0, secret)
  }

  /** A store that bars all entries of `order` stays as it is. */
  lemma {:induction false} BarredIdle(s: Store, entries: map<string, KeyData>, order: seq<string>,
                                      key: string, unwritable: set<string>)
    requires Among(order, entries)
    requires forall i :: 0 <= i < |order| ==> order[i] in s && s[order[i]].firstIndex == 0
    ensures MergeAll(s, entries, order, key, unwritable) == s
    decreases |order|
  {
    if order != [] {
      assert WithEntry(s, order[0], entries[order[0]], key, unwritable) == s;
      BarredIdle(s, entries, order[1..], key, unwritable);
    }
  }

  /** Some order of a set of identifiers. */
  lemma {:induction false} SomeOrder(keys: set<string>) returns (order: seq<string>)
    ensures Distinct(order) && forall k :: k in order <==> k in keys
  {
    if keys == {} {
      order := [];
    } else {
      var k :| k in keys;
      var rest := SomeOrder(keys - {k});
      order := rest + [k];
    }
  }

  /** A secret that neither session has. */
  lemma OtherSecret(x: Option<GroupSession>, y: Option<GroupSession>) returns (secret: string)
    ensures (x.Some? ==> x.value.secret != secret) && (y.Some? ==> y.value.secret != secret)
  {
    secret := (if x.Some? then x.value.secret else "") + (if y.Some? then y.value.secret else "") + "!";
  }

  lemma {:induction false} HarmlessMerge(s: Store, entries: map<string, KeyData>, order: seq<string>,
                                         key: string, unwritable: set<string>)
    requires SelfKeyed(s) && Among(order, entries)
    requires forall sid :: sid in entries ==> Harmless(sid, entries[sid], key, unwritable)
    ensures NeverWorse(s, MergeAll(s, entries, order, key, unwritable))
    decreases |order|
  {
    if order != [] {
      var s1 := WithEntry(s, order[0], entries[order[0]], key, unwritable);
      TurnNeverWorseIff(order[0], entries[order[0]], key, unwritable);
      HarmlessMerge(s1, entries, order[1..], key, unwritable);
    }
  }

  /** No complete restore, over whatever is stored, raises the first index of a session. */
  ghost predicate NeverCosts(entries: map<string, KeyData>, key: string, unwritable: set<string>) {
    forall s, order | Full(order, entries) :: SelfKeyed(s) ==> NeverWorse(s, MergeAll(s, entries, order, key, unwritable))
  }

  /** A store that one entry makes worse and that has all of `base`, but for the session that gets worse. */
  lemma HarmShows(sid: string, kd: KeyData, key: string, unwritable: set<string>, base: Store) returns (s: Store)
    requires !Harmless(sid, kd, key, unwritable) && SelfKeyed(base) && sid !in base
    requires forall k :: k in base ==> base[k].firstIndex == 0
    ensures SelfKeyed(s) && !NeverWorse(s, WithEntry(s, sid, kd, key, unwritable))
    ensures forall k :: k in base ==> k in s && s[k].firstIndex == 0
  {
    var o := Opened(kd, key, unwritable).value;
    var i: Index := if o.id == sid then Uint32(kd.firstMessageIndex) + 1 else 0;
    s := base[o.id := o.(firstIndex := i)];
    assert WithEntry(s, sid, kd, key, unwritable) == s[o.id := o];
    assert o.id in s && s[o.id := o][o.id] == o;
  }

  lemma HarmfulCosts(entries: map<string, KeyData>, sid: string, key: string, unwritable: set<string>)
    requires sid in entries && !Harmless(sid, entries[sid], key, unwritable)
    ensures !NeverCosts(entries, key, unwritable)
  {
    var front := SomeOrder(entries.Keys - {sid});
    var s := HarmShows(sid, entries[sid], key, unwritable, Bar(entries.Keys - {sid}, ""));
    forall i | 0 <= i < |front| ensures front[i] in entries && front[i] in s && s[front[i]].firstIndex == 0 {
      assert front[i] in front && front[i] in Bar(entries.Keys - {sid}, "");
    }
    BarredIdle(s, entries, front, key, unwritable);
    MergeMore(s, entries, front, sid, key, unwritable);
    assert Full(front + [sid], entries);
  }

  /** Exactly: no complete restore of a room costs a message, in any order and over any store, if and only
      if each of its entries is harmless. */
  lemma HarmlessRestoreIff(entries: map<string, KeyData>, key: string, unwritable: set<string>)
    ensures NeverCosts(entries, key, unwritable) <==>
            forall sid :: sid in entries ==> Harmless(sid, entries[sid], key, unwritable)
  {
    if sid :| sid in entries && !Harmless(sid, entries[sid], key, unwritable) {
      HarmfulCosts(entries, sid, key, unwritable);
    } else {
      forall s, order | Full(order, entries) && SelfKeyed(s)
        ensures NeverWorse(s, MergeAll(s, entries, order, key, unwritable))
      {
        HarmlessMerge(s, entries, order, key, unwritable);
      }
    }
  }

  // ---------------------------------------------------------------- the order of the map

  ghost predicate AllCommute(entries: map<string, KeyData>, key: string, unwritable: set<string>) {
    forall a, b :: a in entries && b in entries && a != b ==> Commute(a, entries[a], b, entries[b], key, unwritable)
  }

  /** One order with an entry taken out. */
  function Without(order: seq<string>, i: nat): (r: seq<string>)
    requires i < |order|
  {
    order[..i] + order[i + 1..]
  }

  /** A commuting entry may as well be visited first. */
  lemma {:induction false} PullFront(s: Store, entries: map<string, KeyData>, order: seq<string>, i: nat,
                                     key: string, unwritable: set<string>)
    requires Among(order, entries) && Distinct(order) && i < |order| && AllCommute(entries, key, unwritable)
    ensures Among(Without(order, i), entries)
    ensures MergeAll(s, entries, order, key, unwritable) ==
            MergeAll(WithEntry(s, order[i], entries[order[i]], key, unwritable), entries, Without(order, i), key, unwritable)
    decreases i
  {
    if i == 0 {
      assert Without(order, 0) == order[1..];
    } else {
      var a, b := order[0], order[i];
      var tail := order[1..];
      var sa := WithEntry(s, a, entries[a], key, unwritable);
      PullFront(sa, entries, tail, i - 1, key, unwritable);
      CommuteSuffices(s, a, entries[a], b, entries[b], key, unwritable);
      assert Without(order, i)[0] == a && Without(order, i)[1..] == Without(tail, i - 1);
    }
  }

  ghost predicate SameEntries(p: seq<string>, q: seq<string>) {
    |p| == |q| && Distinct(p) && Distinct(q) && forall x :: x in p <==> x in q
  }

  lemma {:induction false} AnyOrder(s: Store, entries: map<string, KeyData>, p: seq<string>, q: seq<string>,
                                    key: string, unwritable: set<string>)
    requires Among(p, entries) && Among(q, entries) && SameEntries(p, q) && AllCommute(entries, key, unwritable)
    ensures MergeAll(s, entries, p, key, unwritable) == MergeAll(s, entries, q, key, unwritable)
    decreases |p|
  {
    if p != [] {
      assert p[0] in q;
      var i :| 0 <= i < |q| && q[i] == p[0];
      PullFront(s, entries, q, i, key, unwritable);
      RestSame(p, q, i);
      AnyOrder(WithEntry(s, p[0], entries[p[0]], key, unwritable), entries, p[1..], Without(q, i), key, unwritable);
    }
  }

  lemma RestSame(p: seq<string>, q: seq<string>, i: nat)
    requires p != [] && SameEntries(p, q) && i < |q| && q[i] == p[0]
    ensures SameEntries(p[1..], Without(q, i))
  {
    var r := Without(q, i);
    forall j, k | 0 <= j < k < |r| ensures r[j] != r[k] {
      assert r[j] == q[if j < i then j else j + 1] && r[k] == q[if k < i then k else k + 1];
    }
    forall x | x in r ensures x in p[1..] {
      var j :| 0 <= j < |r| && r[j] == x;
      assert x == q[if j < i then j else j + 1];
      assert x in p && x != p[0];
    }
    forall x | x in p[1..] ensures x in r {
      assert x in p && x in q;
      var k :| 0 <= k < |q| && q[k] == x;
      assert k != i;
      assert r[if k < i then k else k - 1] == x;
    }
  }

  /** Every two complete restores of the room end in the same store. */
  ghost predicate OrderFree(entries: map<string, KeyData>, key: string, unwritable: set<string>) {
    forall s, p, q | Full(p, entries) && Full(q, entries) :: SelfKeyed(s) ==>
      MergeAll(s, entries, p, key, unwritable) == MergeAll(s, entries, q, key, unwritable)
  }

  function Visits(order: seq<string>): set<string> {
    set sid | sid in order
  }

  lemma VisitsMore(front: seq<string>, sid: string)
    ensures Visits(front + [sid]) == Visits(front) + {sid}
  {
  }

  lemma {:induction false} DistinctSize(p: seq<string>)
    requires Distinct(p)
    ensures |Visits(p)| == |p|
  {
    if p != [] {
      var n := |p| - 1;
      assert p == p[..n] + [p[n]];
      VisitsMore(p[..n], p[n]);
      DistinctSize(p[..n]);
    }
  }

  lemma FullSame(p: seq<string>, q: seq<string>, entries: map<string, KeyData>)
    requires Full(p, entries) && Full(q, entries)
    ensures SameEntries(p, q)
  {
    DistinctSize(p);
    DistinctSize(q);
    assert Visits(p) == entries.Keys == Visits(q);
  }

  lemma MergeLastTwo(s: Store, entries: map<string, KeyData>, front: seq<string>, a: string, b: string,
                     key: string, unwritable: set<string>)
    requires Among(front, entries) && a in entries && b in entries && MergeAll(s, entries, front, key, unwritable) == s
    ensures Among(front + [a] + [b], entries)
    ensures MergeAll(s, entries, front + [a] + [b], key, unwritable) ==
            WithEntry(WithEntry(s, a, entries[a], key, unwritable), b, entries[b], key, unwritable)
  {
    MergeMore(s, entries, front, a, key, unwritable);
    MergeMore(s, entries, front + [a], b, key, unwritable);
  }

  lemma MergeTwo(s: Store, entries: map<string, KeyData>, a: string, b: string, key: string, unwritable: set<string>)
    requires a in entries && b in entries
    ensures Among([a, b], entries)
    ensures MergeAll(s, entries, [a, b], key, unwritable) ==
            WithEntry(WithEntry(s, a, entries[a], key, unwritable), b, entries[b], key, unwritable)
  {
    MergeLastTwo(s, entries, [], a, b, key, unwritable);
    assert [] + [a] + [b] == [a, b];
  }

  /** Two entries that do not commute show the order: all others come first and are kept out. */
  lemma PairShowsOrder(entries: map<string, KeyData>, a: string, b: string, key: string, unwritable: set<string>)
    requires a in entries && b in entries && a != b && !Commute(a, entries[a], b, entries[b], key, unwritable)
    ensures !OrderFree(entries, key, unwritable)
  {
    var others := entries.Keys - {a, b};
    var front := SomeOrder(others);
    var secret := OtherSecret(Opened(entries[a], key, unwritable), Opened(entries[b], key, unwritable));
    var s := OrderShows(a, entries[a], b, entries[b], key, unwritable, Bar(others, secret));
    forall i | 0 <= i < |front| ensures front[i] in entries && front[i] in s && s[front[i]].firstIndex == 0 {
      assert front[i] in front && front[i] in Bar(others, secret);
    }
    BarredIdle(s, entries, front, key, unwritable);
    MergeLastTwo(s, entries, front, a, b, key, unwritable);
    MergeLastTwo(s, entries, front, b, a, key, unwritable);
    LastTwoFull(entries, front, a, b);
    LastTwoFull(entries, front, b, a);
  }

  lemma LastTwoFull(entries: map<string, KeyData>, front: seq<string>, a: string, b: string)
    requires a in entries && b in entries && a != b && Distinct(front)
    requires forall k :: k in front <==> k in entries.Keys - {a, b}
    ensures Full(front + [a] + [b], entries)
  {
    var order := front + [a] + [b];
    forall i | 0 <= i < |front| ensures front[i] in entries && front[i] != a && front[i] != b {
      assert front[i] in front;
    }
  }

  /** Exactly: no store shows the order of the map in a complete restore if and only if the entries commute
      in pairs. */
  lemma OrderFreeIff(entries: map<string, KeyData>, key: string, unwritable: set<string>)
    ensures OrderFree(entries, key, unwritable) <==> AllCommute(entries, key, unwritable)
  {
    if AllCommute(entries, key, unwritable) {
      forall s, p, q | Full(p, entries) && Full(q, entries) && SelfKeyed(s)
        ensures MergeAll(s, entries, p, key, unwritable) == MergeAll(s, entries, q, key, unwritable)
      {
        FullSame(p, q, entries);
        AnyOrder(s, entries, p, q, key, unwritable);
      }
    } else {
      var a, b :| a in entries && b in entries && a != b && !Commute(a, entries[a], b, entries[b], key, unwritable);
      PairShowsOrder(entries, a, b, key, unwritable);
    }
  }

  /** Two entries that both hold session "c", one from index 9, one from index 5: either can win. */
  lemma OrderMatters(key: string)
    ensures var entry := (i: Index) => Packed(GroupSession("c", "", "", [], i, ""), key);
            var entries := map["a" := entry(9), "b" := entry(5)];
      && Full(["a", "b"], entries) && Full(["b", "a"], entries)
      && At(MergeAll(map[], entries, ["a", "b"], key, {}), "c") == Some(GroupSession("c", "", "", [], 5, ""))
      && At(MergeAll(map[], entries, ["b", "a"], key, {}), "c") == Some(GroupSession("c", "", "", [], 9, ""))
  {
    var entry := (i: Index) => Packed(GroupSession("c", "", "", [], i, ""), key);
    var entries := map["a" := entry(9), "b" := entry(5)];
    MergeTwo(map[], entries, "a", "b", key, {});
    MergeTwo(map[], entries, "b", "a", key, {});
  }

  // ---------------------------------------------------------------- entries under their own identifiers

  ghost predicate AllFiled(entries: map<string, KeyData>, key: string) {
    forall sid :: sid in entries ==> Filed(sid, entries[sid], key)
  }

  /** The sessions that a restore adds or improves. */
  function Improved(store: Store, entries: map<string, KeyData>, key: string, unwritable: set<string>): set<string> {
    set sid | sid in entries && Imports(At(store, sid), entries[sid], key, unwritable)
  }

  /** The sessions of `order` are merged, each on its own, and the others are as before. */
  ghost predicate MergedOver(before: Store, after: Store, entries: map<string, KeyData>, order: seq<string>,
                             key: string, unwritable: set<string>)
    requires Among(order, entries)
  {
    forall sid :: At(after, sid) ==
      if sid in order then Merge(At(before, sid), entries[sid], key, unwritable) else At(before, sid)
  }

  lemma FiledCommute(entries: map<string, KeyData>, key: string, unwritable: set<string>)
    requires AllFiled(entries, key)
    ensures AllCommute(entries, key, unwritable) && OrderFree(entries, key, unwritable)
  {
    forall a | a in entries ensures Filed(a, entries[a], key) {}
    OrderFreeIff(entries, key, unwritable);
  }

  /** Of entries that stand under their own identifiers each session gets its own merge, in any order. */
  lemma {:induction false} FiledRestore(s: Store, entries: map<string, KeyData>, order: seq<string>,
                                        key: string, unwritable: set<string>)
    requires Among(order, entries) && Distinct(order) && AllFiled(entries, key)
    ensures MergedOver(s, MergeAll(s, entries, order, key, unwritable), entries, order, key, unwritable)
    decreases |order|
  {
    if order != [] {
      var n := |order| - 1;
      var front, sid := order[..n], order[n];
      assert order == front + [sid] && sid !in front;
      FiledRestore(s, entries, front, key, unwritable);
      MergeMore(s, entries, front, sid, key, unwritable);
      FiledOneMore(s, MergeAll(s, entries, front, key, unwritable), entries, front, sid, key, unwritable);
    }
  }

  /** And the count is the number of sessions added or improved. */
  lemma {:induction false} FiledCount(s: Store, entries: map<string, KeyData>, order: seq<string>,
                                      key: string, unwritable: set<string>)
    requires Among(order, entries) && Distinct(order) && AllFiled(entries, key)
    ensures Imported(s, entries, order, key, unwritable) == |Improved(s, entries, key, unwritable) * Visits(order)|
    decreases |order|
  {
    if order == [] {
      assert Improved(s, entries, key, unwritable) * Visits(order) == {};
    } else {
      var n := |order| - 1;
      var front, sid := order[..n], order[n];
      assert order == front + [sid] && sid !in front;
      FiledCount(s, entries, front, key, unwritable);
      FiledRestore(s, entries, front, key, unwritable);
      MergeMore(s, entries, front, sid, key, unwritable);
      FiledOneMore(s, MergeAll(s, entries, front, key, unwritable), entries, front, sid, key, unwritable);
      VisitsMore(front, sid);
      CountOneMore(Improved(s, entries, key, unwritable), Visits(front), sid);
    }
  }

  lemma FiledOneMore(s: Store, m: Store, entries: map<string, KeyData>, front: seq<string>, sid: string,
                     key: string, unwritable: set<string>)
    requires Among(front, entries) && sid in entries && sid !in front && Filed(sid, entries[sid], key)
    requires MergedOver(s, m, entries, front, key, unwritable)
    ensures At(m, sid) == At(s, sid)
    ensures MergedOver(s, WithEntry(m, sid, entries[sid], key, unwritable), entries, front + [sid], key, unwritable)
  {
  }

  lemma CountOneMore(improved: set<string>, done: set<string>, sid: string)
    requires sid !in done
    ensures |improved * (done + {sid})| == |improved * done| + if sid in improved then 1 else 0
  {
    if sid in improved {
      assert improved * (done + {sid}) == improved * done + {sid};
    } else {
      assert improved * (done + {sid}) == improved * done;
    }
  }

  /** A second complete restore imports nothing, and then changes nothing, exactly if every session that
      the first one imported came with a claim of at least its index. */
  lemma SecondRestoreIsIdleIff(s0: Store, entries: map<string, KeyData>, p: seq<string>, q: seq<string>,
                               key: string, unwritable: set<string>)
    requires Full(p, entries) && Full(q, entries) && AllFiled(entries, key)
    ensures var s1 := MergeAll(s0, entries, p, key, unwritable);
      && (Imported(s1, entries, q, key, unwritable) == 0 <==>
            forall sid :: sid in entries && Imports(At(s0, sid), entries[sid], key, unwritable) ==>
              Opened(entries[sid], key, unwritable).value.firstIndex <= Uint32(entries[sid].firstMessageIndex))
      && (Imported(s1, entries, q, key, unwritable) == 0 ==> MergeAll(s1, entries, q, key, unwritable) == s1)
  {
    var s1 := MergeAll(s0, entries, p, key, unwritable);
    var again := Improved(s1, entries, key, unwritable);
    FiledRestore(s0, entries, p, key, unwritable);
    FiledRestore(s1, entries, q, key, unwritable);
    FiledCount(s1, entries, q, key, unwritable);
    assert again * Visits(q) == again;
    forall sid | sid in entries
      ensures sid in again <==> Imports(At(s0, sid), entries[sid], key, unwritable)
                                && Opened(entries[sid], key, unwritable).value.firstIndex > Uint32(entries[sid].firstMessageIndex)
    {
      assert At(s1, sid) == Merge(At(s0, sid), entries[sid], key, unwritable);
    }
    if again == {} {
      var s2 := MergeAll(s1, entries, q, key, unwritable);
      forall sid ensures At(s2, sid) == At(s1, sid) {}
      MapsEqual(s2, s1);
    }
  }

  // ---------------------------------------------------------------- the manager

  datatype Restored = Restored(imported: nat, ok: bool)

  datatype Upload = Failed | Panics | Uploaded(sid: string, data: KeyData)

  class KeyBackupManager {
    var currentKey: Option<string>
    var store: Store                      // the group sessions of the room

    /** One turn of the loop; it fails if the stored session cannot be read. */
    method RestoreSession(sid: string, kd: KeyData, key: string, unreadable: set<string>, unwritable: set<string>)
      returns (ok: bool, added: bool)
      modifies this`store
      ensures !ok <==> sid in unreadable && Decrypt(kd.sessionData, key).Some?
      ensures !ok ==> store == old(store) && !added
      ensures ok ==> added == Imports(At(old(store), sid), kd, key, unwritable)
      ensures ok ==> store == WithEntry(old(store), sid, kd, key, unwritable)
    {
      ok, added := true, false;
      var data := Decrypt(kd.sessionData, key);
      if data == None {
        return;
      }
      if sid in unreadable {
        return false, false;
      }
      if sid in store && store[sid].firstIndex <= Uint32(kd.firstMessageIndex) {
        return;
      }
      var igs := Import(data.value);
      if igs == None || igs.value.id in unwritable {
        return;
      }
      store := store[igs.value.id := igs.value];
      added := true;
    }

    /** What the loop has done once it has visited `order`. */
    twostate predicate Visited(entries: map<string, KeyData>, key: string, unwritable: set<string>,
                               order: seq<string>, imported: nat)
      reads this
    {
      && Among(order, entries) && Distinct(order)
      && store == MergeAll(old(store), entries, order, key, unwritable)
      && imported == Imported(old(store), entries, order, key, unwritable)
    }

    /** It visits all entries, or stops at one that opens while its stored session cannot be read. */
    ghost predicate Ends(r: Restored, entries: map<string, KeyData>, key: string, unreadable: set<string>, order: seq<string>) {
      if r.ok then forall sid :: sid in entries ==> sid in order
      else exists sid :: sid in entries && sid !in order && sid in unreadable && Decrypt(entries[sid].sessionData, key).Some?
    }

    /** The loop over the sessions of a backup, visited in any order; reading a session of `unreadable`
        or writing one of `unwritable` fails. */
    method RestoreSessions(entries: map<string, KeyData>, key: string, unreadable: set<string>, unwritable: set<string>)
      returns (r: Restored, ghost order: seq<string>)
      modifies this`store
      ensures Visited(entries, key, unwritable, order, r.imported) && Ends(r, entries, key, unreadable, order)
    {
      var imported, todo := 0, entries.Keys;
      order := [];
      while todo != {}
        invariant todo <= entries.Keys && forall sid :: sid in entries ==> (sid in todo <==> sid !in order)
        invariant Visited(entries, key, unwritable, order, imported)
        decreases todo
      {
        var sid :| sid in todo;
        MergeMore(old(store), entries, order, sid, key, unwritable);
        var ok, added := RestoreSession(sid, entries[sid], key, unreadable, unwritable);
        if !ok {
          assert sid in entries && sid !in order;
          return Restored(imported, false), order;
        }
        imported := imported + if added then 1 else 0;
        todo := todo - {sid};
        order := order + [sid];
      }
      r := Restored(imported, true);
    }

    /** `backup` is the server's answer: nothing if one of the requests fails. */
    method RestoreRoomKeys(backup: Option<map<string, KeyData>>, unreadable: set<string>, unwritable: set<string>)
      returns (r: Restored, ghost order: seq<string>)
      modifies this`store
      ensures currentKey == None || backup == None ==> r == Restored(0, false) && store == old(store)
      ensures currentKey.Some? && backup.Some? ==>
                && Visited(backup.value, currentKey.value, unwritable, order, r.imported)
                && Ends(r, backup.value, currentKey.value, unreadable, order)
    {
      if currentKey == None || backup == None {
        return Restored(0, false), [];
      }
      r, order := RestoreSessions(backup.value, currentKey.value, unreadable, unwritable);
    }

    /** The session as it is uploaded. A session that is not in the store reads as nothing, without an
        error, and nothing checks for that. */
    method BackupRoomKeys(sid: string, readable: bool, versionKnown: bool, accepted: bool) returns (upload: Upload)
      ensures upload == Panics <==> currentKey.Some? && readable && versionKnown && sid !in store
      ensures upload.Uploaded? <==> currentKey.Some? && readable && versionKnown && sid in store && accepted
      ensures upload.Uploaded? ==> upload.sid == store[sid].id && upload.data == Packed(store[sid], currentKey.value)
    {
      if currentKey == None || !readable || !versionKnown {
        return Failed;
      }
      if sid !in store {
        return Panics;
      }
      var igs := store[sid];
      var data := BackupData(igs.senderKey, igs.signingKey, igs.chain, Export(igs));
      if !accepted {
        return Failed;
      }
      upload := Uploaded(igs.id, KeyData(igs.firstIndex as int, Sealed(currentKey.value, data)));
    }
  }

  function Packed(igs: GroupSession, key: string): KeyData {
    KeyData(igs.firstIndex as int, Sealed(key, BackupData(igs.senderKey, igs.signingKey, igs.chain, Export(igs))))
  }

  /** Backup and restore are inverse: what was packed is honest, stands under its own identifier, and
      opens, with the same key only, to the session itself. */
  lemma BackupRoundTrip(igs: GroupSession, key: string, other: string)
    ensures var kd := Packed(igs, key);
      && Honest(kd, key) && Filed(igs.id, kd, key) && Harmless(igs.id, kd, key, {})
      && (forall s: Store :: igs.id !in s ==> WithEntry(s, igs.id, kd, key, {}) == s[igs.id := igs])
      && (forall s: Store :: At(s, igs.id) == Some(igs) ==> WithEntry(s, igs.id, kd, key, {}) == s)
      && (other != key ==> forall s: Store, sid :: WithEntry(s, sid, kd, other, {}) == s)
  {
  }
}
