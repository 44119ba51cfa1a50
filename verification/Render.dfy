/** Grouping of consecutive messages: the callback's flag against a full render of the list. */
module Render {
  import opened Wrappers
  import opened Messages
  import opened SortedTree
  import opened Timeline
  import opened Runs
  import opened Mirror

  const NANOS_PER_MINUTE := 60_000_000_000

  predicate WithinMinutes(a: int, b: int, minutes: nat) {
    -(minutes * NANOS_PER_MINUTE) <= a - b <= minutes * NANOS_PER_MINUTE
  }

  /** The event callback: a message continues the one before it. */
  predicate CallbackContinued(e: TreeEvent) {
    (e.AddEvent? || e.UpdateEvent?) && e.neighbors.prev.Some?
    && e.neighbors.prev.value.author == e.msg.author
    && WithinMinutes(e.neighbors.prev.value.ts, e.msg.ts, 5)
  }

  /** `MessageList` over the newest-first list of messages, at position `i`. */
  predicate RenderContinued(items: seq<Message>, i: nat)
    requires i < |items|
  {
    i < |items| - 1
    && items[i + 1].author == items[i].author
    && WithinMinutes(items[i].ts, items[i + 1].ts, 5)
  }

  /** The strictly descending enumeration of the tree, each entry once. */
  lemma ReversedDescends(t: Tree)
    requires Sorted(t)
    ensures forall i, j :: 0 <= i < j < |t| ==> Before(Reversed(t)[j], Reversed(t)[i])
    ensures forall x :: x in t <==> x in Reversed(t)
  {
    forall x | x in t ensures x in Reversed(t) {
      var i :| 0 <= i < |t| && t[i] == x;
      assert Reversed(t)[|t| - 1 - i] == x;
    }
  }

  lemma StoredIsThere(s: State, m: Message, clock: Clock)
    requires Clocked(s, clock) && m.ts == clock(m.id)
    ensures var t := SetState(s, m).tree;
            Sorted(t) && Has(t, Stamped(s, m)) && t[Seek(t, Stamped(s, m))] == Stamped(s, m)
  {
    SetTree(s, m);
    var t, m' := SetState(s, m).tree, Stamped(s, m);
    assert m' in t;
    HasSpec(t, m');
    SeekSplits(t, m');
  }

  lemma NeighborsGroup(t: Tree, e: TreeEvent)
    requires !e.RemoveEvent? && e.neighbors == NeighborsOf(t, e.msg)
    requires Seek(t, e.msg) < |t| && t[Seek(t, e.msg)] == e.msg
    ensures var i := |t| - 1 - Seek(t, e.msg);
            Reversed(t)[i] == e.msg && (CallbackContinued(e) <==> RenderContinued(Reversed(t), i))
  {
    var k := Seek(t, e.msg);
    var i := |t| - 1 - k;
    assert Reversed(t)[i] == t[k];
    assert k > 0 ==> Reversed(t)[i + 1] == t[k - 1];
    assert e.neighbors.prev == if k > 0 then Some(t[k - 1]) else None;
  }

  /** The message at `k` comes after one of the same author, at most five minutes away. */
  predicate ContinuesAt(t: Tree, k: nat)
    requires k < |t|
  {
    k > 0 && t[k - 1].author == t[k].author && -300_000_000_000 <= t[k - 1].ts - t[k].ts <= 300_000_000_000
  }

  /** For every event of `Set` the callback groups the message as a full render would. */
  lemma SetIsGroupedAsRendered(s: State, m: Message, clock: Clock)
    requires Clocked(s, clock) && m.ts == clock(m.id)
    ensures var t, e := SetState(s, m).tree, SetEvent(s, m);
            var i := |t| - 1 - Seek(t, Stamped(s, m));
      && 0 <= i < |t| && Reversed(t)[i] == e.msg
      && (CallbackContinued(e) <==> RenderContinued(Reversed(t), i))
      && (CallbackContinued(e) <==> ContinuesAt(t, Seek(t, Stamped(s, m))))
  {
    StoredIsThere(s, m, clock);
    NeighborsGroup(SetState(s, m).tree, SetEvent(s, m));
  }

  lemma PutIsThere(t: Tree, m: Message)
    requires Sorted(t)
    ensures var t' := Put(t, m);
            Sorted(t') && Seek(t', m) < |t'| && t'[Seek(t', m)] == m
  {
    PutSpec(t, m);
    assert m in Put(t, m);
    SeekSplits(Put(t, m), m);
  }

  /** The message starts a group: there is none before it, or one by somebody else, or an older one. */
  predicate StartsGroup(before: Option<Message>, m: Message) {
    match before
    case None => true
    case Some(p) => p.author != m.author || p.ts - m.ts < -300_000_000_000 || p.ts - m.ts > 300_000_000_000
  }

  /** What listeners are told about an entry is the entry that the tree then has; a removed one is gone. */
  lemma EventsCarryEntries(s: State, m: Message, clock: Clock)
    requires Clocked(s, clock) && m.ts == clock(m.id)
    ensures Emit(s, DoSet(m)) == [SetEvent(s, m)] && SetEvent(s, m).msg == m.(roomID := s.room, nonce := "")
    ensures SetEvent(s, m).msg in Act(s, DoSet(m)).tree && !SetEvent(s, m).RemoveEvent?
    ensures |Emit(s, WriteBack(m))| == 1 && Emit(s, WriteBack(m))[0].UpdateEvent?
    ensures Emit(s, WriteBack(m))[0].msg == m && m in Act(s, WriteBack(m)).tree
    ensures Emit(s, DropTree(m)) == [RemoveEvent(m)] && forall x :: x in Act(s, DropTree(m)).tree ==> !SameKey(x, m)
  {
    SetTree(s, m);
    PutSpec(s.tree, m);
    DropSpec(s.tree, m);
  }

  /** An embed written back is announced without its neighbours, so the callback never groups it. That is
      what a full render shows exactly if the entry before it is by somebody else or more than five
      minutes away, or there is none. */
  lemma WriteBackIsGroupedIff(s: State, m: Message)
    requires Sorted(s.tree)
    ensures var t, e := Put(s.tree, m), Emit(s, WriteBack(m))[0];
            var i := |t| - 1 - Seek(t, m);
      && 0 <= i < |t| && Reversed(t)[i] == m
      && ((CallbackContinued(e) <==> RenderContinued(Reversed(t), i)) <==> StartsGroup(NeighborsOf(t, m).prev, m))
  {
    PutIsThere(s.tree, m);
  }

  /** Two messages by one author a second apart: the second is grouped until its embeds arrive, and the
      embed's event takes the grouping away. */
  lemma EmbedLosesGroup()
    ensures var a := EventMessage(EventHead("c1", 0, "@a", None), "hi", "");
            var b := EventMessage(EventHead("c2", 1_000_000_000, "@a", None), "https://x", "");
            var s := DoAll(Empty("!r"), [Live(EventHead("c1", 0, "@a", None), "hi", "")]);
      && CallbackContinued(SetEvent(s, b))
      && !CallbackContinued(Emit(SetState(s, b), WriteBack(Stamped(s, b).(embeds := ["card"])))[0])
      && RenderContinued(Reversed(Put(SetState(s, b).tree, Stamped(s, b).(embeds := ["card"]))), 0)
  {
    var a := EventMessage(EventHead("c1", 0, "@a", None), "hi", "");
    var b := EventMessage(EventHead("c2", 1_000_000_000, "@a", None), "https://x", "");
    var step := Live(EventHead("c1", 0, "@a", None), "hi", "");
    var s := DoAll(Empty("!r"), [step]);
    DoTwo(Empty("!r"), step, step);
    ActCons(Empty("!r"), DoSet(a), []);
    var a', b' := a.(roomID := "!r"), b.(roomID := "!r");
    var w := b'.(embeds := ["card"]);
    TwoItems(a', b', w);
    assert !IsPlaceholder("c1") && !IsPlaceholder("c2");
    assert s == Do(Empty("!r"), step) == SetState(Empty("!r"), a);
    assert Stamped(Empty("!r"), a) == a';
    assert s.tree == [a'];
    assert SetState(s, b).tree == [a', b'];
  }
}
