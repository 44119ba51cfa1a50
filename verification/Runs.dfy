/** What the client does to a timeline: sends, sync events, history pages, embeds, redactions and
    retries, each as a program of atomic sections, and what every completed step keeps. */
module Runs {
  import opened Wrappers
  import opened Messages
  import opened SortedTree
  import opened Timeline

  // ---------------------------------------------------------------- messages built from events

  function EventMessage(h: EventHead, content: string, nonce: string): Message {
    Message(h.id, h.ts, h.sender, content, nonce, "", [], false, false)
  }

  function UndecryptableMessage(h: EventHead, nonce: string): Message {
    Message(h.id, h.ts, h.sender, "", nonce, "", [], true, false)
  }

  function RedactedMessage(h: EventHead, reason: string): Message {
    Message(h.id, h.ts, h.sender, reason, "", "", [], false, true)
  }

  /** A placeholder: a local send, or an event that is being decrypted. */
  function PlaceholderMessage(id: string, ts: int, author: string, content: string): Message {
    Message(id, ts, author, content, "", "", [], false, false)
  }

  // ---------------------------------------------------------------- programs

  /** How an attempt to decrypt ends. `NotAMessage` covers other event types and unreadable content. */
  datatype Decryption =
    | Undecryptable
    | NotAMessage
    | RedactedInside(reason: string)
    | Decrypted(content: string)

  datatype RoomEvent =
    | Encrypted(head: EventHead, outcome: Decryption)
    | Plain(head: EventHead, content: Option<string>)
    | Other(head: EventHead)

  /** An event of a history page, the nonce drawn for it and the embeds found for its message. */
  datatype PageItem = PageItem(event: RoomEvent, nonce: string, embeds: seq<string>)

  /** Set a message; its embeds are written back later, if there are any. */
  function SetWithEmbeds(room: string, m: Message, embeds: seq<string>): seq<Action> {
    [DoSet(m)] + if embeds == [] then [] else [WriteBack(m.(roomID := room, nonce := "", embeds := embeds))]
  }

  /** What follows the placeholder of an encrypted event, by the outcome of its decryption. */
  function AfterPlaceholder(room: string, item: PageItem, outcome: Decryption): seq<Action> {
    var h := item.event.head;
    match outcome
    case Undecryptable =>
      var m := UndecryptableMessage(h, item.nonce);
      [StoreRaw(h), StoreNonce(m)] + SetWithEmbeds(room, m, item.embeds)
    case NotAMessage => []
    case RedactedInside(reason) => SetWithEmbeds(room, RedactedMessage(h, reason), item.embeds)
    case Decrypted(content) => SetWithEmbeds(room, EventMessage(h, content, item.nonce), item.embeds)
  }

  /** The goroutine that `populateTree` starts for one event, with the embed goroutine it leads to. */
  function PageProgram(room: string, item: PageItem): seq<Action> {
    var h := item.event.head;
    if item.event.Other? then []
    else if h.redactedBecause.Some? then SetWithEmbeds(room, RedactedMessage(h, h.redactedBecause.value), item.embeds)
    else
      match item.event
      case Encrypted(_, outcome) =>
        [DoSet(PlaceholderMessage(item.nonce, h.ts, h.sender, ""))] + AfterPlaceholder(room, item, outcome)
      case Plain(_, Some(content)) => SetWithEmbeds(room, EventMessage(h, content, ""), item.embeds)
      case _ => []
  }

  /** How a retry ends. */
  datatype RetryEnd = Retried(ok: bool) | Panics

  /** `RetryDecryptMessage` for a snapshot `m` of an entry. When the decrypted event says that it is
      redacted, the code goes on to read the reason from the stored event: a nil dereference unless
      that event carries one too. */
  function RetryEnds(s: State, m: Message, outcome: Decryption): RetryEnd {
    if !m.undecryptable || m.id !in s.raw then Retried(false)
    else
      match outcome
      case Undecryptable => Retried(false)
      case NotAMessage => Retried(false)
      case RedactedInside(_) => if s.raw[m.id].redactedBecause == None then Panics else Retried(true)
      case Decrypted(_) => Retried(true)
  }

  predicate RetrySucceeds(s: State, m: Message, outcome: Decryption) {
    RetryEnds(s, m, outcome) == Retried(true)
  }

  /** The message a successful retry stores. */
  function RetryMessage(s: State, m: Message, outcome: Decryption): Message
    requires RetrySucceeds(s, m, outcome)
  {
    var h := s.raw[m.id];
    if outcome.Decrypted? then EventMessage(h, outcome.content, m.id) else RedactedMessage(h, h.redactedBecause.value)
  }

  /** The sections of a retry. */
  function RetryProgram(s: State, m: Message, outcome: Decryption): seq<Action> {
    if RetrySucceeds(s, m, outcome) then [DropRaw(m.id), DoSet(RetryMessage(s, m, outcome))] else []
  }

  /** The redaction branch of `Listen`. */
  function RedactionProgram(s: State, id: string, reason: string): seq<Action> {
    if id !in s.index then []
    else
      var m := s.index[id];
      [TakeIndex(id), DropTree(m), DoSet(RedactedFrom(m, reason))]
  }

  datatype Step =
    | LocalSend(nonce: string, ts: int, author: string, content: string)
    | Live(head: EventHead, content: string, txn: string)
    | Page(item: PageItem)
    | Embeds(m: Message)
    | Redaction(id: string, reason: string)
    | Retry(m: Message, outcome: Decryption)

  function Program(s: State, step: Step): seq<Action> {
    match step
    case LocalSend(nonce, ts, author, content) => [DoSet(PlaceholderMessage(nonce, ts, author, content))]
    case Live(h, content, txn) => [DoSet(EventMessage(h, content, txn))]
    case Page(item) => PageProgram(s.room, item)
    case Embeds(m) => [WriteBack(m)]
    case Redaction(id, reason) => RedactionProgram(s, id, reason)
    case Retry(m, outcome) => RetryProgram(s, m, outcome)
  }

  function Do(s: State, step: Step): State {
    ActAll(s, Program(s, step))
  }

  function DoAll(s: State, steps: seq<Step>): State
    decreases |steps|
  {
    if steps == [] then s else DoAll(Do(s, steps[0]), steps[1..])
  }

  lemma DoTwo(s: State, a: Step, b: Step)
    ensures DoAll(s, [a]) == Do(s, a) && DoAll(s, [a, b]) == Do(Do(s, a), b)
  {
    assert [a][1..] == [] && [a, b][1..] == [b] && [b][1..] == [];
    assert DoAll(Do(s, a), [b]) == DoAll(Do(Do(s, a), b), []);
    assert DoAll(s, [a]) == DoAll(Do(s, a), []);
  }

  // ---------------------------------------------------------------- hypotheses

  predicate HeadFits(h: EventHead, clock: Clock) {
    !IsPlaceholder(h.id) && h.ts == clock(h.id)
  }

  /** What the code relies on: event IDs determine timestamps, hash classes of event IDs are no
      nonces, and an embed is written back for a stored message with a real identifier. */
  predicate Fits(step: Step, clock: Clock) {
    match step
    case LocalSend(nonce, ts, _, _) => IsPlaceholder(nonce) && ts == clock(nonce)
    case Live(h, _, _) => HeadFits(h, clock)
    case Page(item) =>
      HeadFits(item.event.head, clock) && IsPlaceholder(item.nonce) && item.event.head.ts == clock(item.nonce)
    case Embeds(m) => !IsPlaceholder(m.id) && m.ts == clock(m.id) && m.nonce == ""
    case Redaction(id, _) => !IsPlaceholder(id)
    case Retry(m, _) => true
  }

  predicate AllFit(steps: seq<Step>, clock: Clock) {
    forall i :: 0 <= i < |steps| ==> Fits(steps[i], clock)
  }

  // ---------------------------------------------------------------- the invariant

  /** Placeholders are the entries that an event may still replace. */
  ghost predicate PlaceholdersWait(s: State) {
    forall k :: IsPlaceholder(k) ==> (k in s.index <==> k in s.nonces)
  }

  /** Stored events stand under their own identifier, and none came with a redaction. */
  ghost predicate RawFits(s: State, clock: Clock) {
    forall k :: k in s.raw ==> s.raw[k].id == k && HeadFits(s.raw[k], clock) && s.raw[k].redactedBecause == None
  }

  ghost predicate Inv(s: State, clock: Clock) {
    && Clocked(s, clock)
    && Agree(s)
    && (forall k :: k in s.index ==> s.index[k].nonce == "")
    && PlaceholdersWait(s)
    && RawFits(s, clock)
  }

  lemma InvMatches(s: State, m: Message, clock: Clock)
    requires Inv(s, clock) && m.ts == clock(m.id)
    ensures NoncesMatch(s) && !Collides(s, m)
  {
  }

  lemma SetKeepsInv(s: State, m: Message, clock: Clock)
    requires Inv(s, clock) && m.ts == clock(m.id)
    requires IsPlaceholder(m.id) ==> m.nonce == ""
    ensures Inv(SetState(s, m), clock)
  {
    InvMatches(s, m, clock);
    ClockedStep(s, DoSet(m), clock);
    SetAgreesIff(s, m);
    SetTables(s, m);
  }

  lemma WriteBackKeepsInv(s: State, m: Message, clock: Clock)
    requires Inv(s, clock) && m.ts == clock(m.id) && m.nonce == "" && !IsPlaceholder(m.id)
    ensures Inv(Stored(s, m), clock)
  {
    ClockedStep(s, WriteBack(m), clock);
    PutSpec(s.tree, m);
    forall x | x in s.tree ensures SameKey(x, m) <==> x.id == m.id {}
    MatchStep(s.tree, s.index, Put(s.tree, m), s.index[m.id := m], m, {});
  }

  /** The state of a redaction between `DeleteMessage` and the `Set` that follows. */
  function Removed(s: State, m: Message): State {
    s.(index := s.index - {m.id}, tree := Drop(s.tree, m))
  }

  lemma RemoveKeepsInv(s: State, m: Message, clock: Clock)
    requires Inv(s, clock) && m.id in s.index && s.index[m.id] == m && !IsPlaceholder(m.id)
    ensures Inv(Removed(s, m), clock)
  {
    var t := Drop(s.tree, m);
    assert Sorted(t) && forall x :: x in t <==> x in s.tree && x.id != m.id by {
      DropSpec(s.tree, m);
      forall x | x in s.tree ensures SameKey(x, m) <==> x.id == m.id {}
    }
    UnmatchStep(s.tree, s.index, t, m.id);
    var s' := Removed(s, m);
    assert Clocked(s', clock);
    assert PlaceholdersWait(s');
  }

  lemma UnmatchStep(t: Tree, index: map<string, Message>, t': Tree, id: string)
    requires Match(t, index)
    requires forall x :: x in t' <==> x in t && x.id != id
    ensures Match(t', index - {id})
  {
  }

  /** Atomic sections that keep the invariant by themselves. */
  predicate Keeps(a: Action, clock: Clock) {
    match a
    case DoSet(m) => m.ts == clock(m.id) && (IsPlaceholder(m.id) ==> m.nonce == "")
    case WriteBack(m) => m.ts == clock(m.id) && m.nonce == "" && !IsPlaceholder(m.id)
    case StoreRaw(h) => HeadFits(h, clock) && h.redactedBecause == None
    case DropRaw(_) => true
    case StoreNonce(m) => m.ts == clock(m.id) && !IsPlaceholder(m.id)
    case _ => false
  }

  predicate AllKeep(p: seq<Action>, clock: Clock) {
    forall i :: 0 <= i < |p| ==> Keeps(p[i], clock)
  }

  lemma ActKeepsInv(s: State, a: Action, clock: Clock)
    requires Inv(s, clock) && Keeps(a, clock)
    ensures Inv(Act(s, a), clock)
  {
    match a
    case DoSet(m) => SetKeepsInv(s, m, clock);
    case WriteBack(m) => WriteBackKeepsInv(s, m, clock);
    case StoreRaw(_) =>
    case DropRaw(_) =>
    case StoreNonce(_) =>
  }

  lemma {:induction false} ProgramKeepsInv(s: State, p: seq<Action>, clock: Clock)
    requires Inv(s, clock) && AllKeep(p, clock)
    ensures Inv(ActAll(s, p), clock)
    decreases |p|
  {
    if p != [] {
      ActKeepsInv(s, p[0], clock);
      ProgramKeepsInv(Act(s, p[0]), p[1..], clock);
    }
  }

  lemma PageKeeps(room: string, item: PageItem, clock: Clock)
    requires Fits(Page(item), clock)
    ensures AllKeep(PageProgram(room, item), clock)
  {
  }

  lemma RedactionResult(s: State, id: string, reason: string)
    requires id in s.index && s.index[id].id == id
    ensures Do(s, Redaction(id, reason)) == SetState(Removed(s, s.index[id]), RedactedFrom(s.index[id], reason))
  {
    var m := s.index[id];
    ActThree(s, TakeIndex(id), DropTree(m), DoSet(RedactedFrom(m, reason)));
  }

  lemma RedactionKeepsInv(s: State, id: string, reason: string, clock: Clock)
    requires Inv(s, clock) && !IsPlaceholder(id)
    ensures Inv(Do(s, Redaction(id, reason)), clock)
  {
    if id in s.index {
      RedactionResult(s, id, reason);
      RemoveKeepsInv(s, s.index[id], clock);
      SetKeepsInv(Removed(s, s.index[id]), RedactedFrom(s.index[id], reason), clock);
    }
  }

  /** A retry stores the message and forgets the raw event; the order of the two does not matter. */
  lemma RetryResult(s: State, m: Message, outcome: Decryption)
    requires m.id in s.raw ==> s.raw[m.id].id == m.id
    ensures Do(s, Retry(m, outcome)) ==
            if RetrySucceeds(s, m, outcome)
            then SetState(s, RetryMessage(s, m, outcome)).(raw := s.raw - {m.id})
            else s
  {
    if RetrySucceeds(s, m, outcome) {
      var r := RetryMessage(s, m, outcome);
      ActTwo(s, DropRaw(m.id), DoSet(r));
      SetIgnoresRaw(s, s.raw - {m.id}, r);
    }
  }

  /** In every consistent state a retry panics exactly if the event it has stored decrypts to a message
      that is redacted inside, and stores something exactly if it decrypts to a message that is not. */
  lemma RetryPanicsIff(s: State, m: Message, outcome: Decryption, clock: Clock)
    requires Inv(s, clock)
    ensures RetryEnds(s, m, outcome).Panics? <==> m.undecryptable && m.id in s.raw && outcome.RedactedInside?
    ensures RetrySucceeds(s, m, outcome) <==> m.undecryptable && m.id in s.raw && outcome.Decrypted?
  {
  }

  lemma RetryKeeps(s: State, m: Message, outcome: Decryption, clock: Clock)
    requires Inv(s, clock)
    ensures AllKeep(RetryProgram(s, m, outcome), clock)
  {
  }

  /** Every completed step keeps the tables of the timeline consistent. */
  lemma StepKeepsInv(s: State, step: Step, clock: Clock)
    requires Inv(s, clock) && Fits(step, clock)
    ensures Inv(Do(s, step), clock)
  {
    match step
    case LocalSend(nonce, ts, author, content) =>
      ActCons(s, DoSet(PlaceholderMessage(nonce, ts, author, content)), []);
      SetKeepsInv(s, PlaceholderMessage(nonce, ts, author, content), clock);
    case Live(h, content, txn) =>
      ActCons(s, DoSet(EventMessage(h, content, txn)), []);
      SetKeepsInv(s, EventMessage(h, content, txn), clock);
    case Page(item) =>
      PageKeeps(s.room, item, clock);
      ProgramKeepsInv(s, PageProgram(s.room, item), clock);
    case Embeds(m) =>
      ActCons(s, WriteBack(m), []);
      WriteBackKeepsInv(s, m, clock);
    case Redaction(id, reason) => RedactionKeepsInv(s, id, reason, clock);
    case Retry(m, outcome) =>
      RetryKeeps(s, m, outcome, clock);
      ProgramKeepsInv(s, RetryProgram(s, m, outcome), clock);
  }

  /** In every state that completed steps reach, the tree has at most one entry for an identifier,
      the index is exactly its identifier-to-message map, placeholders are exactly the entries the
      nonce table waits for, and stored events stand under their own identifier without a redaction. */
  lemma {:induction false} RunKeepsInv(s: State, steps: seq<Step>, clock: Clock)
    requires Inv(s, clock) && AllFit(steps, clock)
    ensures Inv(DoAll(s, steps), clock)
    decreases |steps|
  {
    if steps != [] {
      StepKeepsInv(s, steps[0], clock);
      RunKeepsInv(Do(s, steps[0]), steps[1..], clock);
    }
  }

  // ---------------------------------------------------------------- events kept for a retry

  /** Every undecryptable entry can be tried again. */
  ghost predicate RawKept(s: State) {
    forall k :: k in s.index && s.index[k].undecryptable ==> k in s.raw
  }

  /** Atomic sections after which every undecryptable entry still has its event. */
  predicate KeepsRaw(s: State, a: Action) {
    match a
    case DoSet(m) => m.undecryptable ==> m.id in s.raw
    case WriteBack(m) => m.undecryptable ==> m.id in s.raw
    case DropRaw(id) => id in s.index ==> !s.index[id].undecryptable
    case _ => true
  }

  ghost predicate AllKeepRaw(s: State, p: seq<Action>)
    decreases |p|
  {
    p == [] || (KeepsRaw(s, p[0]) && AllKeepRaw(Act(s, p[0]), p[1..]))
  }

  lemma ActKeepsRaw(s: State, a: Action, clock: Clock)
    requires Clocked(s, clock) && RawKept(s) && KeepsRaw(s, a)
    ensures RawKept(Act(s, a))
  {
  }

  lemma {:induction false} ProgramKeepsRaw(s: State, p: seq<Action>, clock: Clock)
    requires Clocked(s, clock) && RawKept(s) && AllKeepRaw(s, p)
    requires forall i :: 0 <= i < |p| ==> ActionFits(p[i], clock)
    ensures RawKept(ActAll(s, p))
    decreases |p|
  {
    if p != [] {
      ActKeepsRaw(s, p[0], clock);
      ClockedStep(s, p[0], clock);
      ProgramKeepsRaw(Act(s, p[0]), p[1..], clock);
    }
  }

  lemma KeepRawCons(s: State, a: Action, p: seq<Action>)
    requires KeepsRaw(s, a) && AllKeepRaw(Act(s, a), p)
    ensures AllKeepRaw(s, [a] + p)
  {
  }

  lemma SetWithEmbedsKeepsRaw(s: State, m: Message, embeds: seq<string>, clock: Clock)
    requires Clocked(s, clock) && (m.undecryptable ==> m.id in s.raw)
    ensures AllKeepRaw(s, SetWithEmbeds(s.room, m, embeds))
  {
  }

  lemma UndecryptableKeepsRaw(s: State, h: EventHead, nonce: string, embeds: seq<string>, clock: Clock)
    requires Clocked(s, clock) && HeadFits(h, clock)
    ensures var m := UndecryptableMessage(h, nonce);
            AllKeepRaw(s, [StoreRaw(h), StoreNonce(m)] + SetWithEmbeds(s.room, m, embeds))
  {
    var m := UndecryptableMessage(h, nonce);
    var p := SetWithEmbeds(s.room, m, embeds);
    var s1 := s.(raw := s.raw[h.id := h]);
    var s2 := s1.(nonces := s1.nonces[m.id := m]);
    SetWithEmbedsKeepsRaw(s2, m, embeds, clock);
    KeepRawCons(s1, StoreNonce(m), p);
    KeepRawCons(s, StoreRaw(h), [StoreNonce(m)] + p);
    assert [StoreRaw(h)] + ([StoreNonce(m)] + p) == [StoreRaw(h), StoreNonce(m)] + p;
  }

  lemma PageKeepsRaw(s: State, item: PageItem, clock: Clock)
    requires Inv(s, clock) && Fits(Page(item), clock)
    ensures AllKeepRaw(s, PageProgram(s.room, item))
  {
    var h := item.event.head;
    if !item.event.Other? && h.redactedBecause.Some? {
      SetWithEmbedsKeepsRaw(s, RedactedMessage(h, h.redactedBecause.value), item.embeds, clock);
    } else if item.event.Encrypted? {
      var a := DoSet(PlaceholderMessage(item.nonce, h.ts, h.sender, ""));
      var s1 := Act(s, a);
      ClockedStep(s, a, clock);
      SetTables(s, a.m);
      match item.event.outcome {
        case Undecryptable => UndecryptableKeepsRaw(s1, h, item.nonce, item.embeds, clock);
        case NotAMessage =>
        case RedactedInside(reason) => SetWithEmbedsKeepsRaw(s1, RedactedMessage(h, reason), item.embeds, clock);
        case Decrypted(content) => SetWithEmbedsKeepsRaw(s1, EventMessage(h, content, item.nonce), item.embeds, clock);
      }
      KeepRawCons(s, a, AfterPlaceholder(s.room, item, item.event.outcome));
    } else if item.event.Plain? && item.event.content.Some? {
      SetWithEmbedsKeepsRaw(s, EventMessage(h, item.event.content.value, ""), item.embeds, clock);
    }
  }

  /** An embed written back for a snapshot that could not be decrypted, when its event is gone. */
  predicate IsStrayEmbed(s: State, step: Step) {
    step.Embeds? && step.m.undecryptable && step.m.id !in s.raw
  }

  lemma EmbedsKeepRawIff(s: State, m: Message)
    requires RawKept(s)
    ensures RawKept(Do(s, Embeds(m))) <==> !IsStrayEmbed(s, Embeds(m))
  {
    ActCons(s, WriteBack(m), []);
    assert Do(s, Embeds(m)).index[m.id] == m;
  }

  lemma RedactionKeepsRaw(s: State, id: string, reason: string, clock: Clock)
    requires Inv(s, clock) && RawKept(s) && id in s.index && !IsPlaceholder(id)
    ensures RawKept(Do(s, Redaction(id, reason)))
  {
    var m := s.index[id];
    RedactionResult(s, id, reason);
    RemoveKeepsInv(s, m, clock);
    ActKeepsRaw(Removed(s, m), DoSet(RedactedFrom(m, reason)), clock);
  }

  lemma RetryKeepsRaw(s: State, m: Message, outcome: Decryption, clock: Clock)
    requires Inv(s, clock) && RawKept(s)
    ensures RawKept(Do(s, Retry(m, outcome)))
  {
    RetryResult(s, m, outcome);
    if RetrySucceeds(s, m, outcome) {
      SetTables(s, RetryMessage(s, m, outcome));
    }
  }

  /** Every completed step leaves each undecryptable entry with its event, but for exactly one case: an
      embed written back for an undecryptable snapshot whose event a retry has already used up. */
  lemma StepKeepsRawIff(s: State, step: Step, clock: Clock)
    requires Inv(s, clock) && RawKept(s) && Fits(step, clock)
    ensures RawKept(Do(s, step)) <==> !IsStrayEmbed(s, step)
  {
    match step
    case LocalSend(nonce, ts, author, content) =>
      ActCons(s, DoSet(PlaceholderMessage(nonce, ts, author, content)), []);
      ActKeepsRaw(s, DoSet(PlaceholderMessage(nonce, ts, author, content)), clock);
    case Live(h, content, txn) =>
      ActCons(s, DoSet(EventMessage(h, content, txn)), []);
      ActKeepsRaw(s, DoSet(EventMessage(h, content, txn)), clock);
    case Page(item) =>
      PageKeepsRaw(s, item, clock);
      PageKeeps(s.room, item, clock);
      ProgramKeepsRaw(s, PageProgram(s.room, item), clock);
    case Embeds(m) => EmbedsKeepRawIff(s, m);
    case Redaction(id, reason) =>
      if id in s.index {
        RedactionKeepsRaw(s, id, reason, clock);
      }
    case Retry(m, outcome) => RetryKeepsRaw(s, m, outcome, clock);
  }

  ghost predicate NoStrayEmbeds(s: State, steps: seq<Step>)
    decreases |steps|
  {
    steps == [] || (!IsStrayEmbed(s, steps[0]) && NoStrayEmbeds(Do(s, steps[0]), steps[1..]))
  }

  /** So in every state reached without such a write-back each undecryptable entry can be tried again. */
  lemma {:induction false} RunKeepsRaw(s: State, steps: seq<Step>, clock: Clock)
    requires Inv(s, clock) && RawKept(s) && AllFit(steps, clock) && NoStrayEmbeds(s, steps)
    ensures RawKept(DoAll(s, steps))
    decreases |steps|
  {
    if steps != [] {
      StepKeepsRawIff(s, steps[0], clock);
      StepKeepsInv(s, steps[0], clock);
      RunKeepsRaw(Do(s, steps[0]), steps[1..], clock);
    }
  }

  /** Where it goes wrong: an entry that could not be decrypted, a retry that succeeds, and then the
      embeds that were looked up for the old entry (the embed cache answers by message identifier, so
      they can be those of the decrypted text). The entry is undecryptable for good. */
  lemma StrayEmbedSticks(s: State, id: string, content: string, embeds: seq<string>, clock: Clock)
    requires Inv(s, clock) && id in s.index && s.index[id].undecryptable && id in s.raw
    ensures var stale := s.index[id].(embeds := embeds);
            var f := Do(Do(s, Retry(s.index[id], Decrypted(content))), Embeds(stale));
      && Fits(Embeds(stale), clock) && Inv(f, clock)
      && id in f.index && f.index[id].undecryptable && id !in f.raw
      && forall outcome :: Do(f, Retry(f.index[id], outcome)) == f
  {
    var m, o := s.index[id], Decrypted(content);
    var stale, s1 := m.(embeds := embeds), Do(s, Retry(m, o));
    assert m in s.tree;
    StepKeepsInv(s, Retry(m, o), clock);
    assert s1.raw == s.raw - {id} by {
      RetryResult(s, m, o);
      SetTables(s, RetryMessage(s, m, o));
    }
    StepKeepsInv(s1, Embeds(stale), clock);
    ActCons(s1, WriteBack(stale), []);
  }
}
