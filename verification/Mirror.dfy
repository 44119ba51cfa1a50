/** The list of message elements in a browser, patched event by event, against the tree it shows. */
module Mirror {
  import opened Wrappers
  import opened Messages
  import opened SortedTree
  import opened Timeline

  /** Identifiers of the message elements, top to bottom. */
  type Dom = seq<string>

  /** An out-of-band swap; one whose target is missing does nothing. */
  datatype Patch =
    | InsertBefore(target: string, id: string)
    | InsertAfter(target: string, id: string)
    | Append(id: string)
    | Replace(target: string, id: string)
    | Delete(target: string)

  /** The swap that the event callback of a room writes. */
  function PatchFor(e: TreeEvent): Patch {
    match e
    case AddEvent(m, Neighbors(_, Some(next))) => InsertBefore(next.id, m.id)
    case AddEvent(m, Neighbors(Some(prev), None)) => InsertAfter(prev.id, m.id)
    case AddEvent(m, Neighbors(None, None)) => Append(m.id)
    case UpdateEvent(m, nonce, _) => Replace(if nonce != "" then nonce else m.id, m.id)
    case RemoveEvent(m) => Delete(m.id)
  }

  /** `dom` with `sub` in place of every element `target`. */
  function Swap(dom: Dom, target: string, sub: Dom): Dom {
    if dom == [] then [] else (if dom[0] == target then sub else [dom[0]]) + Swap(dom[1..], target, sub)
  }

  function Patched(dom: Dom, p: Patch): Dom {
    match p
    case InsertBefore(target, id) => Swap(dom, target, [id, target])
    case InsertAfter(target, id) => Swap(dom, target, [target, id])
    case Append(id) => dom + [id]
    case Replace(target, id) => Swap(dom, target, [id])
    case Delete(target) => Swap(dom, target, [])
  }

  function PatchAll(dom: Dom, events: seq<TreeEvent>): Dom
    decreases |events|
  {
    if events == [] then dom else PatchAll(Patched(dom, PatchFor(events[0])), events[1..])
  }

  /** What a full render shows: the identifiers of the tree in ascending order. */
  function Ids(t: Tree): (r: Dom)
    ensures |r| == |t| && forall i :: 0 <= i < |t| ==> r[i] == t[i].id
  {
    seq(|t|, i requires 0 <= i < |t| => t[i].id)
  }

  // ---------------------------------------------------------------- lists

  lemma {:induction false} SwapAbsent(dom: Dom, target: string, sub: Dom)
    requires target !in dom
    ensures Swap(dom, target, sub) == dom
  {
    if dom != [] {
      SwapAbsent(dom[1..], target, sub);
    }
  }

  lemma {:induction false} SwapAt(dom: Dom, p: nat, sub: Dom)
    requires p < |dom|
    requires forall j :: 0 <= j < |dom| && j != p ==> dom[j] != dom[p]
    ensures Swap(dom, dom[p], sub) == dom[..p] + sub + dom[p + 1..]
  {
    if p == 0 {
      SwapAbsent(dom[1..], dom[0], sub);
    } else {
      SwapAt(dom[1..], p - 1, sub);
      assert dom[..p] == [dom[0]] + dom[1..][..p - 1];
    }
  }

  lemma FirstItem(dom: Dom, x: string, rest: Dom)
    requires dom == [x] + rest
    ensures multiset(dom) == multiset{x} + multiset(rest)
  {
  }

  lemma Trade(base: multiset<string>, target: string, x: string, sub: multiset<string>)
    requires target in base && sub == multiset{x} + multiset{target}
    ensures base - multiset{target} + sub == base + multiset{x}
  {
  }

  lemma TradeBehind(x: string, rest: multiset<string>, target: string, sub: multiset<string>)
    requires x != target
    ensures multiset{x} + (if target in rest then rest - multiset{target} + sub else rest) ==
            if target in multiset{x} + rest then multiset{x} + rest - multiset{target} + sub else multiset{x} + rest
  {
  }

  /** As collections, a swap of an element that occurs at most once trades it for `sub`. */
  lemma {:induction false} SwapItems(dom: Dom, target: string, sub: Dom)
    requires multiset(dom)[target] <= 1
    ensures multiset(Swap(dom, target, sub)) ==
            if target in dom then multiset(dom) - multiset{target} + multiset(sub) else multiset(dom)
  {
    if dom != [] {
      var x, rest := dom[0], dom[1..];
      FirstItem(dom, x, rest);
      if x == target {
        assert target !in multiset(rest);
        SwapAbsent(rest, target, sub);
      } else {
        SwapItems(rest, target, sub);
        FirstItem(Swap(dom, target, sub), x, Swap(rest, target, sub));
        TradeBehind(x, multiset(rest), target, multiset(sub));
      }
    }
  }

  // ---------------------------------------------------------------- trees

  ghost predicate ClockedTree(t: Tree, clock: Clock) {
    Sorted(t) && forall x :: x in t ==> x.ts == clock(x.id)
  }

  lemma IdsDiffer(t: Tree, clock: Clock)
    requires ClockedTree(t, clock)
    ensures forall i, j :: 0 <= i < |t| && 0 <= j < |t| && i != j ==> Ids(t)[i] != Ids(t)[j]
  {
    forall i, j | 0 <= i < j < |t| ensures t[i].id != t[j].id {
      assert Before(t[i], t[j]) && t[i] in t && t[j] in t;
      BeforeTotal(t[i], t[j]);
    }
  }

  /** In a clocked tree an item is present exactly if its identifier is. */
  lemma HasIsId(t: Tree, m: Message, clock: Clock)
    requires ClockedTree(t, clock) && m.ts == clock(m.id)
    ensures Has(t, m) <==> m.id in Ids(t)
    ensures Has(t, m) ==> Ids(t)[Seek(t, m)] == m.id
  {
    SeekSplits(t, m);
    if m.id in Ids(t) {
      var j :| 0 <= j < |t| && Ids(t)[j] == m.id;
      assert t[j] in t && SameKey(t[j], m);
    }
  }

  lemma PutIds(t: Tree, m: Message)
    ensures var i := Seek(t, m);
            Ids(Put(t, m)) == if Has(t, m) then Ids(t) else Ids(t)[..i] + [m.id] + Ids(t)[i..]
  {
  }

  lemma IdsAppend(a: Tree, b: Tree)
    ensures Ids(a + b) == Ids(a) + Ids(b)
  {
  }

  lemma DropIds(t: Tree, m: Message)
    ensures var i := Seek(t, m);
            Ids(Drop(t, m)) == if Has(t, m) then Ids(t)[..i] + Ids(t)[i + 1..] else Ids(t)
  {
    var i := Seek(t, m);
    if Has(t, m) {
      IdsAppend(t[..i], t[i + 1..]);
      assert Ids(t[..i]) == Ids(t)[..i] && Ids(t[i + 1..]) == Ids(t)[i + 1..];
    }
  }

  lemma SeekKnown(t: Tree, m: Message, i: nat)
    requires Sorted(t) && i <= |t|
    requires i > 0 ==> Before(t[i - 1], m)
    requires i < |t| ==> !Before(t[i], m)
    ensures Seek(t, m) == i
  {
    SeekSplits(t, m);
    var k := Seek(t, m);
    assert k < i ==> SameKey(t[i - 1], m) || Before(m, t[i - 1]);
    if i > 0 {
      BeforeTotal(t[i - 1], m);
    }
  }

  /** The neighbours announced for a newly inserted item are the items it was put between. */
  lemma NeighborsOfPut(t: Tree, m: Message)
    requires Sorted(t) && !Has(t, m)
    ensures var i := Seek(t, m);
            NeighborsOf(Put(t, m), m) ==
            Neighbors(if i > 0 then Some(t[i - 1]) else None, if i < |t| then Some(t[i]) else None)
  {
    PutSorted(t, m);
    SeekSplits(t, m);
    var i := Seek(t, m);
    BeforeTotal(m, m);
    SeekKnown(Put(t, m), m, i);
  }

  // ---------------------------------------------------------------- one step

  /** An item of the tree lies between the replaced entry and the one that replaces it. */
  ghost predicate Crosses(t: Tree, e: Message, m: Message) {
    exists x :: x in t && !SameKey(x, e) && Before(x, e) != Before(x, m)
  }

  lemma Insertions(dom: Dom, i: nat, x: string)
    requires i <= |dom|
    ensures i < |dom| ==> dom[..i] + [x, dom[i]] + dom[i + 1..] == dom[..i] + [x] + dom[i..]
    ensures i > 0 ==> dom[..i - 1] + [dom[i - 1], x] + dom[i..] == dom[..i] + [x] + dom[i..]
  {
  }

  lemma SwapInserts(dom: Dom, i: nat, x: string)
    requires i <= |dom|
    requires forall j, k :: 0 <= j < |dom| && 0 <= k < |dom| && j != k ==> dom[j] != dom[k]
    ensures i < |dom| ==> Swap(dom, dom[i], [x, dom[i]]) == dom[..i] + [x] + dom[i..]
    ensures i > 0 ==> Swap(dom, dom[i - 1], [dom[i - 1], x]) == dom[..i] + [x] + dom[i..]
  {
    Insertions(dom, i, x);
    if i < |dom| {
      SwapAt(dom, i, [x, dom[i]]);
    }
    if i > 0 {
      SwapAt(dom, i - 1, [dom[i - 1], x]);
    }
  }

  /** Insertion at position `i` of the list of `t`. */
  function InsertPatch(t: Tree, i: nat, x: string): Patch
    requires i <= |t|
  {
    if i < |t| then InsertBefore(t[i].id, x) else if i > 0 then InsertAfter(t[i - 1].id, x) else Append(x)
  }

  lemma AddPatch(t: Tree, m: Message)
    requires Sorted(t) && !Has(t, m)
    ensures PatchFor(AddEvent(m, NeighborsOf(Put(t, m), m))) == InsertPatch(t, Seek(t, m), m.id)
  {
    NeighborsOfPut(t, m);
  }

  lemma AddIsMirrored(t: Tree, m: Message, clock: Clock)
    requires ClockedTree(t, clock) && m.ts == clock(m.id) && !Has(t, m)
    ensures Patched(Ids(t), PatchFor(AddEvent(m, NeighborsOf(Put(t, m), m)))) == Ids(Put(t, m))
  {
    AddPatch(t, m);
    PutIds(t, m);
    IdsDiffer(t, clock);
    SwapInserts(Ids(t), Seek(t, m), m.id);
  }

  lemma ReplaceSame(t: Tree, m: Message, clock: Clock)
    requires ClockedTree(t, clock) && m.ts == clock(m.id)
    ensures Swap(Ids(t), m.id, [m.id]) == Ids(t)
  {
    HasIsId(t, m, clock);
    IdsDiffer(t, clock);
    if Has(t, m) {
      SwapAt(Ids(t), Seek(t, m), [m.id]);
    } else {
      SwapAbsent(Ids(t), m.id, [m.id]);
    }
  }

  lemma DropBelow(t: Tree, e: Message)
    requires Sorted(t) && Has(t, e)
    ensures var p, d := Seek(t, e), Drop(t, e);
            p <= |d| && forall j :: 0 <= j < |d| ==> (Before(d[j], e) <==> j < p)
  {
    SeekSplits(t, e);
    var p, d := Seek(t, e), Drop(t, e);
    forall j | p <= j < |d| ensures !Before(d[j], e) {
      BeforeTotal(e, t[j + 1]);
    }
  }

  lemma SeekBelow(d: Tree, m: Message)
    requires Sorted(d) && !Has(d, m)
    ensures forall j :: 0 <= j < |d| ==> (Before(d[j], m) <==> j < Seek(d, m))
  {
    SeekSplits(d, m);
    forall j | Seek(d, m) <= j < |d| ensures !Before(d[j], m) {
      BeforeTotal(m, d[j]);
    }
  }

  /** Where `m` lands once `e` is gone. */
  lemma LandsInPlaceIff(t: Tree, e: Message, m: Message)
    requires Sorted(t) && Has(t, e) && !Has(Drop(t, e), m)
    ensures Seek(Drop(t, e), m) == Seek(t, e) <==> !Crosses(t, e, m)
  {
    var p, d := Seek(t, e), Drop(t, e);
    var q := Seek(d, m);
    DropSpec(t, e);
    DropBelow(t, e);
    SeekBelow(d, m);
    if p < q {
      assert d[p] in d;
    } else if q < p {
      assert d[q] in d;
    }
    forall x | x in t && !SameKey(x, e) ensures exists j :: 0 <= j < |d| && d[j] == x {
      assert x in d;
    }
  }
  /** What a replacement through the nonce table does to the tree. */
  function Exchange(t: Tree, e: Message, m: Message): Tree {
    Put(Drop(t, e), m)
  }

  /** When the in-place swap of `e` for `m` shows the tree after the replacement. */
  ghost predicate ExchangeFits(t: Tree, e: Message, m: Message) {
    if Has(t, e) then m.id == e.id || (!Has(t, m) && !Crosses(t, e, m)) else Has(t, m)
  }

  lemma HasAfterDrop(t: Tree, e: Message, m: Message)
    requires Sorted(t)
    ensures Has(Drop(t, e), m) <==> Has(t, m) && !SameKey(m, e)
  {
    DropSpec(t, e);
    HasSpec(t, m);
    HasSpec(Drop(t, e), m);
  }

  /** The identifiers after a replacement. */
  lemma ExchangeIds(t: Tree, e: Message, m: Message)
    requires Sorted(t)
    ensures var d := Drop(t, e);
            Ids(Exchange(t, e, m)) ==
            if Has(t, m) && !SameKey(m, e) then Ids(d) else Ids(d)[..Seek(d, m)] + [m.id] + Ids(d)[Seek(d, m)..]
  {
    PutIds(Drop(t, e), m);
    HasAfterDrop(t, e, m);
  }

  lemma SwapOfPresent(t: Tree, e: Message, x: string, clock: Clock)
    requires ClockedTree(t, clock) && e.ts == clock(e.id) && Has(t, e)
    ensures var p, ids := Seek(t, e), Ids(t);
      && Swap(ids, e.id, [x]) == ids[..p] + [x] + ids[p + 1..]
      && Ids(Drop(t, e)) == ids[..p] + ids[p + 1..]
  {
    HasIsId(t, e, clock);
    IdsDiffer(t, clock);
    SwapAt(Ids(t), Seek(t, e), [x]);
    DropIds(t, e);
  }

  /** An element taken out at `p` and one put in at `q`: in place exactly if the two are the same. */
  lemma InPlaceIff(ids: Dom, p: nat, rest: Dom, q: nat, x: string)
    requires p < |ids| && q <= |rest| && rest == ids[..p] + ids[p + 1..]
    requires q != p ==> x !in ids
    ensures ids[..p] + [x] + ids[p + 1..] == rest[..q] + [x] + rest[q..] <==> q == p
  {
    if q == p {
      assert rest[..p] == ids[..p] && rest[p..] == ids[p + 1..];
    } else {
      NotInPlace(ids, p, rest, q, x);
    }
  }

  /** Where the successor of an entry lands: in its place exactly if it crosses nothing, and as a new
      element otherwise. */
  lemma NewLands(t: Tree, e: Message, m: Message, clock: Clock)
    requires ClockedTree(t, clock) && m.ts == clock(m.id) && e.ts == clock(e.id) && Has(t, e)
    requires !Has(t, m) || m.id == e.id
    ensures Seek(Drop(t, e), m) == Seek(t, e) <==> !Crosses(t, e, m)
    ensures Seek(Drop(t, e), m) != Seek(t, e) ==> m.id !in Ids(t)
  {
    HasAfterDrop(t, e, m);
    LandsInPlaceIff(t, e, m);
    if m.id == e.id {
      SameKeyLandsInPlace(t, e, m);
    } else {
      HasIsId(t, m, clock);
    }
  }

  /** The entry goes and its successor is a new item, or the entry itself again. */
  lemma ExchangeOfNew(t: Tree, e: Message, m: Message, clock: Clock)
    requires ClockedTree(t, clock) && m.ts == clock(m.id) && e.ts == clock(e.id) && Has(t, e)
    requires !Has(t, m) || m.id == e.id
    ensures Swap(Ids(t), e.id, [m.id]) == Ids(Exchange(t, e, m)) <==> !Crosses(t, e, m)
  {
    var ids, rest, p, q := Ids(t), Ids(Drop(t, e)), Seek(t, e), Seek(Drop(t, e), m);
    NewLands(t, e, m, clock);
    SwapOfPresent(t, e, m.id, clock);
    ExchangeIds(t, e, m);
    InPlaceIff(ids, p, rest, q, m.id);
  }

  lemma ExchangePresent(t: Tree, e: Message, m: Message, clock: Clock)
    requires ClockedTree(t, clock) && m.ts == clock(m.id) && e.ts == clock(e.id) && Has(t, e)
    ensures Swap(Ids(t), e.id, [m.id]) == Ids(Exchange(t, e, m)) <==> ExchangeFits(t, e, m)
  {
    if !Has(t, m) || m.id == e.id {
      ExchangeOfNew(t, e, m, clock);
      if m.id == e.id {
        SameKeyLandsInPlace(t, e, m);
      }
    } else {
      SwapOfPresent(t, e, m.id, clock);
      ExchangeIds(t, e, m);
    }
  }

  lemma ExchangeIsMirroredIff(t: Tree, e: Message, m: Message, clock: Clock)
    requires ClockedTree(t, clock) && m.ts == clock(m.id) && e.ts == clock(e.id)
    ensures Swap(Ids(t), e.id, [m.id]) == Ids(Exchange(t, e, m)) <==> ExchangeFits(t, e, m)
  {
    if Has(t, e) {
      ExchangePresent(t, e, m, clock);
    } else {
      HasIsId(t, e, clock);
      SwapAbsent(Ids(t), e.id, [m.id]);
      PutIds(t, m);
    }
  }

  lemma SameKeyLandsInPlace(t: Tree, e: Message, m: Message)
    requires Sorted(t) && SameKey(e, m)
    ensures !Crosses(t, e, m)
  {
  }

  lemma NotInPlace(ids: Dom, p: nat, rest: Dom, q: nat, x: string)
    requires p < |ids| && q <= |rest| && |rest| == |ids| - 1 && x !in ids && x !in rest && p != q
    ensures ids[..p] + [x] + ids[p + 1..] != rest[..q] + [x] + rest[q..]
  {
    var a := ids[..p] + [x] + ids[p + 1..];
    assert a[p] == x;
    var b := rest[..q] + [x] + rest[q..];
    assert b[p] == rest[if p < q then p else p - 1];
  }

  /** When the patches of one atomic section show its effect on the tree. */
  ghost predicate Mirrored(s: State, a: Action) {
    match a
    case DoSet(m) => Replaces(s, m) ==> ExchangeFits(s.tree, s.nonces[m.nonce], Stamped(s, m))
    case WriteBack(m) => Has(s.tree, m)
    case _ => true
  }

  lemma PatchOne(dom: Dom, e: TreeEvent)
    ensures PatchAll(dom, [e]) == Patched(dom, PatchFor(e))
  {
  }

  lemma OtherPatches(dom: Dom, s: State, a: Action)
    requires !a.DoSet?
    ensures PatchAll(dom, Emit(s, a)) ==
            if a.WriteBack? then Swap(dom, a.m.id, [a.m.id])
            else if a.DropTree? then Swap(dom, a.m.id, [])
            else dom
  {
  }

  lemma SetTreeIs(s: State, m: Message)
    requires s.pendingRedactions == map[]
    ensures SetState(s, m).tree ==
            if Replaces(s, m) then Exchange(s.tree, s.nonces[m.nonce], Stamped(s, m)) else Put(s.tree, Stamped(s, m))
  {
  }

  lemma SetIsMirroredIff(s: State, m: Message, clock: Clock)
    requires Clocked(s, clock) && m.ts == clock(m.id)
    ensures PatchAll(Ids(s.tree), Emit(s, DoSet(m))) == Ids(Act(s, DoSet(m)).tree) <==> Mirrored(s, DoSet(m))
  {
    var m' := Stamped(s, m);
    var dom', t' := SetEffect(Ids(s.tree), s, m, clock);
    if Replaces(s, m) {
      ExchangeIsMirroredIff(s.tree, s.nonces[m.nonce], m', clock);
    } else if Has(s.tree, m') {
      ReplaceSame(s.tree, m', clock);
      PutIds(s.tree, m');
    } else {
      AddIsMirrored(s.tree, m', clock);
    }
  }

  lemma WriteBackIsMirroredIff(s: State, m: Message, clock: Clock)
    requires Clocked(s, clock) && m.ts == clock(m.id)
    ensures Swap(Ids(s.tree), m.id, [m.id]) == Ids(Put(s.tree, m)) <==> Has(s.tree, m)
  {
    ReplaceSame(s.tree, m, clock);
    PutIds(s.tree, m);
  }

  lemma DropIsMirrored(t: Tree, m: Message, clock: Clock)
    requires ClockedTree(t, clock) && m.ts == clock(m.id)
    ensures Swap(Ids(t), m.id, []) == Ids(Drop(t, m))
  {
    HasIsId(t, m, clock);
    IdsDiffer(t, clock);
    DropIds(t, m);
    if Has(t, m) {
      SwapAt(Ids(t), Seek(t, m), []);
    } else {
      SwapAbsent(Ids(t), m.id, []);
    }
  }

  /** One atomic section, exactly: a list that showed the tree shows it afterwards if and only if no
      replacement crosses an item or hits an identifier that is already there, and no embed is
      written back for an item that has gone. */
  lemma ActIsMirroredIff(s: State, a: Action, clock: Clock)
    requires Clocked(s, clock) && ActionFits(a, clock)
    ensures PatchAll(Ids(s.tree), Emit(s, a)) == Ids(Act(s, a).tree) <==> Mirrored(s, a)
  {
    match a
    case DoSet(m) => SetIsMirroredIff(s, m, clock);
    case WriteBack(m) =>
      OtherPatches(Ids(s.tree), s, a);
      WriteBackIsMirroredIff(s, m, clock);
    case DropTree(m) =>
      OtherPatches(Ids(s.tree), s, a);
      DropIsMirrored(s.tree, m, clock);
    case _ => OtherPatches(Ids(s.tree), s, a);
  }

  // ---------------------------------------------------------------- runs

  ghost predicate AllActionsFit(p: seq<Action>, clock: Clock) {
    forall i :: 0 <= i < |p| ==> ActionFits(p[i], clock)
  }

  ghost predicate AllMirrored(s: State, p: seq<Action>)
    decreases |p|
  {
    p == [] || (Mirrored(s, p[0]) && AllMirrored(Act(s, p[0]), p[1..]))
  }

  lemma {:induction false} PatchAllAppend(dom: Dom, p: seq<TreeEvent>, q: seq<TreeEvent>)
    ensures PatchAll(dom, p + q) == PatchAll(PatchAll(dom, p), q)
    decreases |p|
  {
    if p == [] {
      assert p + q == q;
    } else {
      assert (p + q)[1..] == p[1..] + q;
      PatchAllAppend(Patched(dom, PatchFor(p[0])), p[1..], q);
    }
  }

  /** Any run of atomic sections, of any number of goroutines in any order, whose sections are all
      mirrored: patching the list event by event ends in the list a full render would show. */
  lemma {:induction false} RunIsMirrored(s: State, p: seq<Action>, clock: Clock)
    requires Clocked(s, clock) && AllActionsFit(p, clock) && AllMirrored(s, p)
    ensures PatchAll(Ids(s.tree), EmitAll(s, p)) == Ids(ActAll(s, p).tree)
    ensures Clocked(ActAll(s, p), clock)
    decreases |p|
  {
    if p != [] {
      var s1 := Act(s, p[0]);
      ActIsMirroredIff(s, p[0], clock);
      ClockedStep(s, p[0], clock);
      RunIsMirrored(s1, p[1..], clock);
      PatchAllAppend(Ids(s.tree), Emit(s, p[0]), EmitAll(s1, p[1..]));
    }
  }

  // ---------------------------------------------------------------- permutations

  /** The list shows the right elements, in whatever order. */
  ghost predicate Permuted(dom: Dom, t: Tree) {
    multiset(dom) == multiset(Ids(t))
  }

  /** As `ExchangeFits`, without the demand that nothing is crossed. */
  ghost predicate ExchangeKeeps(t: Tree, e: Message, m: Message) {
    if Has(t, e) then m.id == e.id || !Has(t, m) else Has(t, m)
  }

  ghost predicate KeepsItems(s: State, a: Action) {
    match a
    case DoSet(m) => Replaces(s, m) ==> ExchangeKeeps(s.tree, s.nonces[m.nonce], Stamped(s, m))
    case WriteBack(m) => Has(s.tree, m)
    case _ => true
  }

  lemma Inserted(a: Dom, x: string, b: Dom)
    ensures multiset(a + [x] + b) == multiset(a + b) + multiset{x}
  {
  }

  lemma SplitAt(ids: Dom, i: nat)
    requires i < |ids|
    ensures ids == ids[..i] + [ids[i]] + ids[i + 1..]
  {
  }

  lemma ItemsOfPut(t: Tree, m: Message)
    ensures multiset(Ids(Put(t, m))) == multiset(Ids(t)) + if Has(t, m) then multiset{} else multiset{m.id}
  {
    var i, ids := Seek(t, m), Ids(t);
    PutIds(t, m);
    Inserted(ids[..i], m.id, ids[i..]);
    assert ids == ids[..i] + ids[i..];
  }

  lemma ItemsOfDrop(t: Tree, m: Message)
    ensures multiset(Ids(t)) == multiset(Ids(Drop(t, m))) + if Has(t, m) then multiset{m.id} else multiset{}
  {
    var i, ids := Seek(t, m), Ids(t);
    DropIds(t, m);
    if Has(t, m) {
      Inserted(ids[..i], m.id, ids[i + 1..]);
      SplitAt(ids, i);
    }
  }

  lemma {:induction false} DistinctItems(dom: Dom, x: string)
    requires forall i, j :: 0 <= i < |dom| && 0 <= j < |dom| && i != j ==> dom[i] != dom[j]
    ensures multiset(dom)[x] <= 1
  {
    if dom != [] {
      assert dom == [dom[0]] + dom[1..];
      DistinctItems(dom[1..], x);
      if x == dom[0] {
        assert x !in dom[1..];
      }
    }
  }

  lemma SwapPermuted(dom: Dom, t: Tree, target: string, sub: Dom, clock: Clock)
    requires ClockedTree(t, clock) && Permuted(dom, t)
    ensures multiset(Swap(dom, target, sub)) ==
            if target in Ids(t) then multiset(Ids(t)) - multiset{target} + multiset(sub) else multiset(Ids(t))
  {
    IdsDiffer(t, clock);
    DistinctItems(Ids(t), target);
    SwapItems(dom, target, sub);
    assert target in dom <==> target in multiset(dom);
    assert target in Ids(t) <==> target in multiset(Ids(t));
  }

  lemma Grows(b: multiset<string>, x: string)
    ensures b + multiset{x} != b
  {
    assert (b + multiset{x})[x] == b[x] + 1;
  }

  /** The items after the swap, over those of the tree without the replaced entry. */
  lemma SwappedItems(dom: Dom, t: Tree, e: Message, x: string, clock: Clock)
    requires ClockedTree(t, clock) && e.ts == clock(e.id) && Permuted(dom, t)
    ensures multiset(Swap(dom, e.id, [x])) ==
            multiset(Ids(Drop(t, e))) + (if Has(t, e) then multiset{x} else multiset{})
  {
    SwapPermuted(dom, t, e.id, [x], clock);
    HasIsId(t, e, clock);
    ItemsOfDrop(t, e);
  }

  lemma ExchangePermutesIff(dom: Dom, t: Tree, e: Message, m: Message, clock: Clock)
    requires ClockedTree(t, clock) && m.ts == clock(m.id) && e.ts == clock(e.id) && Permuted(dom, t)
    ensures Permuted(Swap(dom, e.id, [m.id]), Exchange(t, e, m)) <==> ExchangeKeeps(t, e, m)
  {
    SwappedItems(dom, t, e, m.id, clock);
    ItemsOfPut(Drop(t, e), m);
    HasAfterDrop(t, e, m);
    Grows(multiset(Ids(Drop(t, e))), m.id);
    if m.id == e.id {
      HasSpec(t, e);
      HasSpec(t, m);
    }
  }

  lemma PairItems(a: string, b: string)
    ensures multiset([a, b]) == multiset{a} + multiset{b}
  {
  }

  lemma InsertPermutes(dom: Dom, t: Tree, j: nat, x: string, sub: Dom, clock: Clock)
    requires ClockedTree(t, clock) && Permuted(dom, t) && j < |t|
    requires multiset(sub) == multiset{x} + multiset{t[j].id}
    ensures multiset(Swap(dom, t[j].id, sub)) == multiset(Ids(t)) + multiset{x}
  {
    var target := Ids(t)[j];
    SwapPermuted(dom, t, target, sub, clock);
    Trade(multiset(Ids(t)), target, x, multiset(sub));
  }

  lemma AddPermutesAt(dom: Dom, t: Tree, i: nat, x: string, clock: Clock)
    requires ClockedTree(t, clock) && Permuted(dom, t) && i <= |t|
    ensures multiset(Patched(dom, InsertPatch(t, i, x))) == multiset(Ids(t)) + multiset{x}
  {
    if i < |t| {
      PairItems(x, t[i].id);
      InsertPermutes(dom, t, i, x, [x, t[i].id], clock);
    } else if i > 0 {
      PairItems(t[i - 1].id, x);
      InsertPermutes(dom, t, i - 1, x, [t[i - 1].id, x], clock);
    }
  }

  lemma AddPermutes(dom: Dom, t: Tree, m: Message, clock: Clock)
    requires ClockedTree(t, clock) && m.ts == clock(m.id) && !Has(t, m) && Permuted(dom, t)
    ensures Permuted(Patched(dom, PatchFor(AddEvent(m, NeighborsOf(Put(t, m), m)))), Put(t, m))
  {
    AddPatch(t, m);
    AddPermutesAt(dom, t, Seek(t, m), m.id, clock);
    ItemsOfPut(t, m);
  }

  /** The patch that `Set` leads to. */
  lemma SetPatch(s: State, m: Message, clock: Clock)
    requires Clocked(s, clock)
    ensures var m' := Stamped(s, m);
            PatchFor(SetEvent(s, m)) ==
            if Replaces(s, m) then Replace(m.nonce, m.id)
            else if Has(s.tree, m') then Replace(m.id, m.id)
            else PatchFor(AddEvent(m', NeighborsOf(Put(s.tree, m'), m')))
  {
  }

  /** The list and the tree after `Set`, in terms of the list and tree before. */
  lemma SetEffect(dom: Dom, s: State, m: Message, clock: Clock) returns (dom': Dom, t': Tree)
    requires Clocked(s, clock)
    ensures dom' == PatchAll(dom, Emit(s, DoSet(m))) && t' == Act(s, DoSet(m)).tree
    ensures var m' := Stamped(s, m);
      && (Replaces(s, m) ==> dom' == Swap(dom, m.nonce, [m.id]) && t' == Exchange(s.tree, s.nonces[m.nonce], m'))
      && (!Replaces(s, m) ==> t' == Put(s.tree, m'))
      && (!Replaces(s, m) && Has(s.tree, m') ==> dom' == Swap(dom, m.id, [m.id]))
      && (!Replaces(s, m) && !Has(s.tree, m') ==>
            dom' == Patched(dom, PatchFor(AddEvent(m', NeighborsOf(Put(s.tree, m'), m')))))
  {
    PatchOne(dom, SetEvent(s, m));
    SetPatch(s, m, clock);
    SetTreeIs(s, m);
    dom', t' := PatchAll(dom, Emit(s, DoSet(m))), Act(s, DoSet(m)).tree;
  }

  lemma SetPermutesIff(dom: Dom, s: State, m: Message, clock: Clock)
    requires Clocked(s, clock) && m.ts == clock(m.id) && Permuted(dom, s.tree)
    ensures Permuted(PatchAll(dom, Emit(s, DoSet(m))), Act(s, DoSet(m)).tree) <==> KeepsItems(s, DoSet(m))
  {
    var m' := Stamped(s, m);
    var dom', t' := SetEffect(dom, s, m, clock);
    if Replaces(s, m) {
      ExchangePermutesIff(dom, s.tree, s.nonces[m.nonce], m', clock);
    } else if Has(s.tree, m') {
      WriteBackPermutesIff(dom, s.tree, m', clock);
    } else {
      AddPermutes(dom, s.tree, m', clock);
    }
  }

  lemma WriteBackPermutesIff(dom: Dom, t: Tree, m: Message, clock: Clock)
    requires ClockedTree(t, clock) && m.ts == clock(m.id) && Permuted(dom, t)
    ensures Permuted(Swap(dom, m.id, [m.id]), Put(t, m)) <==> Has(t, m)
  {
    SwapPermuted(dom, t, m.id, [m.id], clock);
    HasIsId(t, m, clock);
    ItemsOfPut(t, m);
    if !Has(t, m) {
      assert multiset(Ids(Put(t, m)))[m.id] == multiset(Ids(t))[m.id] + 1;
    }
  }

  lemma DropPermutes(dom: Dom, t: Tree, m: Message, clock: Clock)
    requires ClockedTree(t, clock) && m.ts == clock(m.id) && Permuted(dom, t)
    ensures Permuted(Swap(dom, m.id, []), Drop(t, m))
  {
    SwapPermuted(dom, t, m.id, [], clock);
    HasIsId(t, m, clock);
    ItemsOfDrop(t, m);
  }

  /** One atomic section, exactly: the list keeps showing the right elements if and only if no
      replacement hits an identifier that is already there (or misses both), and no embed is
      written back for an item that has gone. */
  lemma ActPermutesIff(dom: Dom, s: State, a: Action, clock: Clock)
    requires Clocked(s, clock) && ActionFits(a, clock) && Permuted(dom, s.tree)
    ensures Permuted(PatchAll(dom, Emit(s, a)), Act(s, a).tree) <==> KeepsItems(s, a)
  {
    match a
    case DoSet(m) => SetPermutesIff(dom, s, m, clock);
    case WriteBack(m) =>
      OtherPatches(dom, s, a);
      WriteBackPermutesIff(dom, s.tree, m, clock);
    case DropTree(m) =>
      OtherPatches(dom, s, a);
      DropPermutes(dom, s.tree, m, clock);
    case _ => OtherPatches(dom, s, a);
  }

  ghost predicate AllKeepItems(s: State, p: seq<Action>)
    decreases |p|
  {
    p == [] || (KeepsItems(s, p[0]) && AllKeepItems(Act(s, p[0]), p[1..]))
  }

  /** With crossing replacements allowed, the list still shows exactly the messages of the tree. */
  lemma {:induction false} RunPermutes(dom: Dom, s: State, p: seq<Action>, clock: Clock)
    requires Clocked(s, clock) && AllActionsFit(p, clock) && AllKeepItems(s, p) && Permuted(dom, s.tree)
    ensures Permuted(PatchAll(dom, EmitAll(s, p)), ActAll(s, p).tree)
    decreases |p|
  {
    if p != [] {
      var s1 := Act(s, p[0]);
      ActPermutesIff(dom, s, p[0], clock);
      ClockedStep(s, p[0], clock);
      RunPermutes(PatchAll(dom, Emit(s, p[0])), s1, p[1..], clock);
      PatchAllAppend(dom, Emit(s, p[0]), EmitAll(s1, p[1..]));
    }
  }
}
