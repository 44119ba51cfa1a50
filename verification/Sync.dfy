/** What the events of the sync loop leave in the timeline, field by field, and how long a redaction
    keeps the old content away. */
module Sync {
  import opened Wrappers
  import opened Messages
  import opened SortedTree
  import opened Timeline
  import opened Runs
  import opened Schedule
  import opened Pages
  import opened Lifecycle

  /** What the sync loop hands to a listening tree. */
  datatype SyncEvent =
    | SyncMessage(head: EventHead, content: Option<string>, txn: string)
    | SyncRedaction(redacts: string, reason: string)
    | SyncOther

  function SyncProgram(s: State, e: SyncEvent): seq<Action> {
    match e
    case SyncMessage(h, Some(content), txn) => [DoSet(EventMessage(h, content, txn))]
    case SyncMessage(_, None, _) => []
    case SyncRedaction(id, reason) => RedactionProgram(s, id, reason)
    case SyncOther => []
  }

  function AfterSync(s: State, e: SyncEvent): State {
    ActAll(s, SyncProgram(s, e))
  }

  // ---------------------------------------------------------------- messages

  /** The message is the tree's only entry for its identifier. */
  ghost predicate Alone(t: Tree, x: Message) {
    x in t && forall y :: y in t && y.id == x.id ==> y == x
  }

  predicate Reads(x: Message, id: string, ts: int, author: string, content: string) {
    x.id == id && x.ts == ts && x.author == author && x.content == content
  }

  /** Nothing but a text: neither embeds nor marks. */
  predicate IsPlainIn(x: Message, room: string) {
    x.roomID == room && x.nonce == "" && x.embeds == [] && !x.undecryptable && !x.redacted
  }

  /** `Set` leaves its message as the only entry, takes away the placeholder that waits for its nonce, and
      no other entry. */
  lemma SetLeaves(s: State, m: Message, clock: Clock)
    requires Inv(s, clock) && m.ts == clock(m.id) && (IsPlaceholder(m.id) ==> m.nonce == "")
    ensures var f := SetState(s, m);
      && Inv(f, clock) && f.room == s.room
      && Alone(f.tree, m.(roomID := s.room, nonce := ""))
      && (forall y: Message :: y.id != m.id ==>
            (y in f.tree <==> y in s.tree && !(y.id == m.nonce && m.nonce != "" && m.nonce in s.nonces)))
      && (m.nonce != "" ==> m.nonce !in f.nonces)
  {
    InvMatches(s, m, clock);
    SetTreeById(s, m, SetState(s, m).tree);
    SetTables(s, m);
    SetKeepsInv(s, m, clock);
  }

  /** A message of the sync loop ends as the tree's only entry for its event, with the instant, the author
      and the content of the event; it takes the placeholder of its transaction away and nothing else. */
  lemma MessageArrives(s: State, h: EventHead, content: string, txn: string, clock: Clock) returns (x: Message)
    requires Inv(s, clock) && HeadFits(h, clock)
    ensures var f := AfterSync(s, SyncMessage(h, Some(content), txn));
      && Inv(f, clock)
      && Alone(f.tree, x) && Reads(x, h.id, h.ts, h.sender, content) && IsPlainIn(x, s.room)
      && (forall y: Message :: y.id != h.id ==> (y in f.tree <==> y in s.tree && !(y.id == txn && txn != "" && txn in s.nonces)))
      && (txn != "" ==> txn !in f.nonces)
  {
    var m := EventMessage(h, content, txn);
    x := m.(roomID := s.room, nonce := "");
    ActCons(s, DoSet(m), []);
    SetLeaves(s, m, clock);
  }

  /** A local send stands in the tree as written, and waits for its echo. */
  lemma SendStands(s: State, nonce: string, ts: int, author: string, content: string, clock: Clock) returns (x: Message)
    requires Inv(s, clock) && Fits(LocalSend(nonce, ts, author, content), clock)
    ensures var f := Do(s, LocalSend(nonce, ts, author, content));
      && Inv(f, clock) && f.room == s.room && nonce in f.nonces
      && Alone(f.tree, x) && Reads(x, nonce, ts, author, content) && IsPlainIn(x, s.room)
      && (forall y: Message :: y.id != nonce ==> (y in f.tree <==> y in s.tree))
  {
    var m := PlaceholderMessage(nonce, ts, author, content);
    x := m.(roomID := s.room, nonce := "");
    ActCons(s, DoSet(m), []);
    SetLeaves(s, m, clock);
    SetTables(s, m);
  }

  /** A send, any steps that name another nonce, and the sync event that carries the nonce as its
      transaction: the tree has one entry for the message, with the fields of the event, and no
      placeholder any more. */
  lemma EchoArrives(s: State, nonce: string, ts: int, author: string, content: string,
                    between: seq<Step>, h: EventHead, echoed: string, clock: Clock) returns (x: Message)
    requires Inv(s, clock) && Fits(LocalSend(nonce, ts, author, content), clock) && HeadFits(h, clock)
    requires AllFit(between, clock) && forall i :: 0 <= i < |between| ==> nonce !in StepFoot(between[i])
    ensures var f := AfterSync(DoAll(Do(s, LocalSend(nonce, ts, author, content)), between), SyncMessage(h, Some(echoed), nonce));
      && Inv(f, clock) && nonce !in f.nonces && (forall y :: y in f.tree ==> y.id != nonce)
      && Alone(f.tree, x) && Reads(x, h.id, h.ts, h.sender, echoed) && IsPlainIn(x, f.room)
  {
    var s1 := Do(s, LocalSend(nonce, ts, author, content));
    var s2 := DoAll(s1, between);
    var sent := SendStands(s, nonce, ts, author, content, clock);
    RunKeepsInv(s1, between, clock);
    RunFrame(s1, between, clock, nonce);
    SameEntries(s1, s2, nonce);
    x := MessageArrives(s2, h, echoed, nonce, clock);
    EchoRoom(s2, h, echoed, nonce, clock);
  }

  lemma EchoRoom(s: State, h: EventHead, content: string, txn: string, clock: Clock)
    requires Inv(s, clock) && HeadFits(h, clock)
    ensures AfterSync(s, SyncMessage(h, Some(content), txn)).room == s.room
  {
    ActCons(s, DoSet(EventMessage(h, content, txn)), []);
    SetTables(s, EventMessage(h, content, txn));
  }

  // ---------------------------------------------------------------- retries

  /** A retry that decrypts its event to a message leaves that as the only entry for its identifier, with the
      instant and the author of the stored event, forgets the event and what waited for it, and changes no
      other entry. */
  lemma RetryArrives(s: State, m: Message, content: string, clock: Clock) returns (x: Message)
    requires Inv(s, clock) && m.undecryptable && m.id in s.raw
    ensures var f := Do(s, Retry(m, Decrypted(content)));
      && Inv(f, clock) && f.raw == s.raw - {m.id} && (m.id != "" ==> m.id !in f.nonces)
      && Alone(f.tree, x) && Reads(x, m.id, s.raw[m.id].ts, s.raw[m.id].sender, content) && IsPlainIn(x, s.room)
      && (forall y: Message :: y.id != m.id ==> (y in f.tree <==> y in s.tree))
  {
    var r := RetryMessage(s, m, Decrypted(content));
    var f := SetState(s, r);
    x := r.(roomID := s.room, nonce := "");
    RetryResult(s, m, Decrypted(content));
    SetLeaves(s, r, clock);
    assert f.(raw := s.raw - {m.id}).tree == f.tree && RawFits(s, clock);
    StepKeepsInv(s, Retry(m, Decrypted(content)), clock);
  }

  /** An event of a page that does not decrypt is kept as it came. */
  lemma UndecryptableIsKept(s: State, item: PageItem, clock: Clock)
    requires Inv(s, clock) && Fits(Page(item), clock)
    requires item.event.Encrypted? && item.event.head.redactedBecause == None && item.event.outcome == Undecryptable
    ensures Do(s, Page(item)).raw == s.raw[item.event.head.id := item.event.head]
  {
    var h := item.event.head;
    var p := PlaceholderMessage(item.nonce, h.ts, h.sender, "");
    ActCons(s, DoSet(p), AfterPlaceholder(s.room, item, Undecryptable));
    SetTables(s, p);
    SetKeepsInv(s, p, clock);
    StoredIsKept(SetState(s, p), h, UndecryptableMessage(h, item.nonce), item.embeds);
  }

  lemma StoredIsKept(s: State, h: EventHead, m: Message, embeds: seq<string>)
    requires s.pendingRedactions == map[] && (forall k :: k in s.nonces ==> s.nonces[k].id == k)
    ensures ActAll(s, [StoreRaw(h), StoreNonce(m)] + SetWithEmbeds(s.room, m, embeds)).raw == s.raw[h.id := h]
  {
    var s2 := s.(raw := s.raw[h.id := h], nonces := s.nonces[m.id := m]);
    SetWithEmbedsKeepsEvents(s2, m, embeds);
    StoredFirst(s, h, m, SetWithEmbeds(s.room, m, embeds), s2);
  }

  lemma StoredFirst(s: State, h: EventHead, m: Message, p: seq<Action>, s2: State)
    requires s2 == s.(raw := s.raw[h.id := h], nonces := s.nonces[m.id := m])
    ensures ActAll(s, [StoreRaw(h), StoreNonce(m)] + p) == ActAll(s2, p)
  {
    ActFront(s, StoreRaw(h), StoreNonce(m), p);
  }

  lemma SetWithEmbedsKeepsEvents(s: State, m: Message, embeds: seq<string>)
    requires s.pendingRedactions == map[] && forall k :: k in s.nonces ==> s.nonces[k].id == k
    ensures ActAll(s, SetWithEmbeds(s.room, m, embeds)).raw == s.raw
  {
    SetTables(s, m);
    if embeds == [] {
      assert SetWithEmbeds(s.room, m, embeds) == [DoSet(m)];
      ActCons(s, DoSet(m), []);
    } else {
      var w := WriteBack(m.(roomID := s.room, nonce := "", embeds := embeds));
      assert SetWithEmbeds(s.room, m, embeds) == [DoSet(m), w];
      ActTwo(s, DoSet(m), w);
    }
  }

  // ---------------------------------------------------------------- redactions

  /** The fields of an entry that was redacted. */
  predicate IsRedactionOf(x: Message, m: Message, reason: string, room: string) {
    && Reads(x, m.id, m.ts, m.author, reason) && x.redacted
    && x.embeds == m.embeds && x.undecryptable == m.undecryptable
    && x.roomID == room && x.nonce == ""
  }

  /** A redaction of an entry leaves it as the only one for its identifier, marked and with the reason as its
      content; instant, author, embeds and the undecryptable mark are those of before. No other entry
      changes. */
  lemma RedactionArrives(s: State, id: string, reason: string, clock: Clock) returns (x: Message)
    requires Inv(s, clock) && !IsPlaceholder(id) && id in s.index
    ensures var f := AfterSync(s, SyncRedaction(id, reason));
      && Inv(f, clock) && Alone(f.tree, x) && x.id == id && IsRedactionOf(x, s.index[id], reason, s.room)
      && (forall y: Message :: y.id != id ==> (y in f.tree <==> y in s.tree))
  {
    var m := s.index[id];
    EntryFields(s, m);
    RedactionResult(s, id, reason);
    SyncIsRedaction(s, id, reason);
    RemoveKeepsInv(s, m, clock);
    RemovedOnly(s, m, clock);
    x := SetRedacted(Removed(s, m), m, reason, clock);
  }

  lemma SyncIsRedaction(s: State, id: string, reason: string)
    ensures AfterSync(s, SyncRedaction(id, reason)) == Do(s, Redaction(id, reason))
  {
  }

  lemma SetRedacted(s: State, m: Message, reason: string, clock: Clock) returns (x: Message)
    requires Inv(s, clock) && m.ts == clock(m.id) && m.nonce == ""
    ensures var f := SetState(s, RedactedFrom(m, reason));
      && Inv(f, clock) && Alone(f.tree, x) && IsRedactionOf(x, m, reason, s.room)
      && (forall y: Message :: y.id != m.id ==> (y in f.tree <==> y in s.tree))
  {
    var r := RedactedFrom(m, reason);
    x := r.(roomID := s.room, nonce := "");
    SetLeaves(s, r, clock);
  }

  lemma EntryFields(s: State, m: Message)
    requires Agree(s) && (forall k :: k in s.index ==> s.index[k].nonce == "") && m.id in s.index && s.index[m.id] == m
    ensures m.nonce == "" && m in s.tree
  {
  }

  lemma RemovedOnly(s: State, m: Message, clock: Clock)
    requires Inv(s, clock) && m.id in s.index && s.index[m.id] == m
    ensures forall y: Message :: y.id != m.id ==> (y in Removed(s, m).tree <==> y in s.tree)
  {
    DropSpec(s.tree, m);
  }

  /** A redaction of anything else, a message that cannot be read and any other event change nothing. */
  lemma OthersChangeNothing(s: State, h: EventHead, txn: string, id: string, reason: string)
    ensures AfterSync(s, SyncMessage(h, None, txn)) == s && AfterSync(s, SyncOther) == s
    ensures id !in s.index ==> AfterSync(s, SyncRedaction(id, reason)) == s
  {
  }

  /** A redaction that waits for its message, if there were one, would be applied when the message is set: the
      entry and the announcement carry the reason and the mark, and nothing waits any more. */
  lemma WaitingRedactionApplies(s: State, m: Message)
    requires Sorted(s.tree) && m.id in s.pendingRedactions
    ensures var f, x := SetState(s, m), SetEvent(s, m).msg;
      && Reads(x, m.id, m.ts, m.author, s.pendingRedactions[m.id]) && x.redacted && x.roomID == s.room
      && x.embeds == m.embeds && x.undecryptable == m.undecryptable
      && At(f.index, m.id) == Some(x) && x in f.tree && (forall y :: y in f.tree && SameKey(y, x) ==> y == x)
      && f.pendingRedactions == s.pendingRedactions - {m.id}
  {
    WaitingTree(s, m);
    WaitingTables(s, m);
  }

  lemma WaitingTree(s: State, m: Message)
    requires Sorted(s.tree) && m.id in s.pendingRedactions
    ensures var t, x := SetState(s, m).tree, Settled(s, m);
            x in t && forall y :: y in t && SameKey(y, x) ==> y == x
  {
    var c := Cleared(s, m).tree;
    if Replaces(s, m) {
      DropSpec(s.tree, s.nonces[m.nonce]);
    }
    PutSpec(c, Stamped(s, m));
    PutTwice(c, Stamped(s, m), Settled(s, m));
    assert SetState(s, m).tree == Put(Put(c, Stamped(s, m)), Settled(s, m));
  }

  lemma PutTwice(t: Tree, a: Message, b: Message)
    requires Sorted(t)
    ensures var u := Put(Put(t, a), b); b in u && forall y :: y in u && SameKey(y, b) ==> y == b
  {
    PutSpec(t, a);
    PutSpec(Put(t, a), b);
  }

  lemma WaitingTables(s: State, m: Message)
    requires m.id in s.pendingRedactions
    ensures var f := SetState(s, m);
            At(f.index, m.id) == Some(Settled(s, m)) && f.pendingRedactions == s.pendingRedactions - {m.id}
    ensures SetEvent(s, m).msg == Settled(s, m)
  {
  }

  // ---------------------------------------------------------------- how long a redaction holds

  /** The step writes a redacted state of `id` with this content: another redaction, an event that comes
      redacted, or the embeds of a redacted snapshot. */
  predicate RedactsTo(step: Step, id: string, content: string) {
    match step
    case Redaction(other, reason) => other == id && reason == content
    case Page(item) =>
      var h := item.event.head;
      && h.id == id && !item.event.Other?
      && (h.redactedBecause == Some(content)
          || (h.redactedBecause == None && item.event.Encrypted? && item.event.outcome == RedactedInside(content)))
    case Embeds(m) => m.id == id && m.redacted && m.content == content
    case _ => false
  }

  /** The steps that undo a redaction of `id`: a message of the event or the echo that takes its place, a page
      that brings it unredacted, embeds of an unredacted snapshot, a retry that decrypts it. */
  ghost predicate NoneUnredacts(s: State, steps: seq<Step>, id: string)
    decreases |steps|
  {
    steps == [] || (!Unredacts(s, steps[0], id) && NoneUnredacts(Do(s, steps[0]), steps[1..], id))
  }

  lemma StepShows(s: State, step: Step, id: string, clock: Clock)
    requires Inv(s, clock) && Fits(step, clock) && !IsPlaceholder(id) && id != ""
    requires ShowsRedacted(s, id) && !Unredacts(s, step, id)
    ensures var f := Do(s, step);
            ShowsRedacted(f, id) && (f.index[id].content == s.index[id].content || RedactsTo(step, id, f.index[id].content))
  {
    RedactionHoldsIff(s, step, id, clock);
    EntryAfter(s, step, id, clock);
    var f := Do(s, step);
    assert At(f.index, id) == Some(f.index[id]);
    if step.Retry? {
      RetryPanicsIff(s, step.m, step.outcome, clock);
    }
  }

  /** What the entry reads in `f` it read in `s`, or a step in between has written it. */
  ghost predicate ReadsFrom(s: State, f: State, id: string, steps: seq<Step>) {
    && ShowsRedacted(s, id) && ShowsRedacted(f, id)
    && (f.index[id].content == s.index[id].content
        || exists i :: 0 <= i < |steps| && RedactsTo(steps[i], id, f.index[id].content))
  }

  lemma ReadsThrough(s: State, s1: State, f: State, id: string, steps: seq<Step>)
    requires steps != [] && ShowsRedacted(s, id) && ReadsFrom(s1, f, id, steps[1..])
    requires s1.index[id].content == s.index[id].content || RedactsTo(steps[0], id, s1.index[id].content)
    ensures ReadsFrom(s, f, id, steps)
  {
    if i :| 0 <= i < |steps[1..]| && RedactsTo(steps[1..][i], id, f.index[id].content) {
      assert RedactsTo(steps[i + 1], id, f.index[id].content);
    }
  }

  lemma {:induction false} RunReads(s: State, steps: seq<Step>, id: string, clock: Clock)
    requires Inv(s, clock) && AllFit(steps, clock) && !IsPlaceholder(id) && id != ""
    requires ShowsRedacted(s, id) && NoneUnredacts(s, steps, id)
    ensures ReadsFrom(s, DoAll(s, steps), id, steps)
    decreases |steps|
  {
    if steps != [] {
      var s1 := Do(s, steps[0]);
      StepKeepsInv(s, steps[0], clock);
      StepShows(s, steps[0], id, clock);
      RunReads(s1, steps[1..], id, clock);
      ReadsThrough(s, s1, DoAll(s1, steps[1..]), id, steps);
    }
  }

  /** After a redaction, and any steps none of which undoes it, every entry of the tree for the identifier is
      marked and reads the reason, or the content of a redaction that came later. So the old content is
      nowhere under it unless one of them repeats that content. */
  lemma RedactionSticks(s: State, id: string, reason: string, steps: seq<Step>, clock: Clock)
    requires Inv(s, clock) && !IsPlaceholder(id) && id != "" && id in s.index && AllFit(steps, clock)
    requires NoneUnredacts(AfterSync(s, SyncRedaction(id, reason)), steps, id)
    ensures var f := DoAll(AfterSync(s, SyncRedaction(id, reason)), steps);
      && Inv(f, clock) && id in f.index
      && forall x :: x in f.tree && x.id == id ==>
           x.redacted && (x.content == reason || exists i :: 0 <= i < |steps| && RedactsTo(steps[i], id, x.content))
  {
    var x := RedactionArrives(s, id, reason, clock);
    var s1 := AfterSync(s, SyncRedaction(id, reason));
    assert s1.index[x.id] == x;
    RunKeepsInv(s1, steps, clock);
    RunReads(s1, steps, id, clock);
    OnlyEntry(DoAll(s1, steps), id);
  }
}
