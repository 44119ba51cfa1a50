/** Which completed steps a patched list follows, in terms of the timeline's tables, with the inputs
    on which it does not. */
module MirroredSteps {
  import opened Wrappers
  import opened Messages
  import opened SortedTree
  import opened Timeline
  import opened Runs
  import opened Schedule
  import opened Mirror
  import opened Retries

  /** Under the invariant: an echo replaces its placeholder in place exactly if no entry lies between
      the two and the echoed message is not there yet. */
  lemma EchoFitsIff(s: State, h: EventHead, content: string, txn: string, clock: Clock)
    requires Inv(s, clock) && HeadFits(h, clock) && IsPlaceholder(txn) && txn in s.nonces
    ensures var m := EventMessage(h, content, txn);
            Mirrored(s, DoSet(m)) <==> h.id !in s.index && !Crosses(s.tree, s.nonces[txn], m)
  {
    var m := Stamped(s, EventMessage(h, content, txn));
    EntryIsThere(s, txn, s.nonces[txn], clock);
    HasMeansIndexed(s, m, clock);
    CrossesByKey(s.tree, s.nonces[txn], m, EventMessage(h, content, txn));
  }

  lemma HasMeansIndexed(s: State, m: Message, clock: Clock)
    requires Inv(s, clock) && m.ts == clock(m.id)
    ensures Has(s.tree, m) <==> m.id in s.index
  {
    HasSpec(s.tree, m);
    if m.id in s.index {
      assert s.index[m.id] in s.tree && SameKey(s.index[m.id], m);
    }
  }

  lemma CrossesByKey(t: Tree, e: Message, a: Message, b: Message)
    requires SameKey(a, b)
    ensures Crosses(t, e, a) <==> Crosses(t, e, b)
  {
  }

  lemma RedactionIsMirrored(s: State, id: string, reason: string, clock: Clock)
    requires Inv(s, clock)
    ensures AllMirrored(s, RedactionProgram(s, id, reason)) && AllActionsFit(RedactionProgram(s, id, reason), clock)
  {
    if id in s.index {
      var m := s.index[id];
      var r := RedactedFrom(m, reason);
      assert m in s.tree;
      MirroredThree(s, TakeIndex(id), DropTree(m), DoSet(r));
    }
  }

  lemma MirroredThree(s: State, a: Action, b: Action, c: Action)
    requires Mirrored(s, a) && Mirrored(Act(s, a), b) && Mirrored(Act(Act(s, a), b), c)
    ensures AllMirrored(s, [a, b, c])
  {
    MirroredCons(Act(Act(s, a), b), c, []);
    MirroredCons(Act(s, a), b, [c]);
    MirroredCons(s, a, [b, c]);
    assert [b] + [c] == [b, c] && [a] + [b, c] == [a, b, c];
  }

  lemma MirroredCons(s: State, a: Action, p: seq<Action>)
    requires Mirrored(s, a) && AllMirrored(Act(s, a), p)
    ensures AllMirrored(s, [a] + p)
  {
  }

  /** A retry of an entry that is still there is always shown: it replaces the entry by itself. */
  lemma RetryIsMirrored(s: State, m: Message, outcome: Decryption, clock: Clock)
    requires Inv(s, clock) && m.id in s.index
    ensures AllMirrored(s, RetryProgram(s, m, outcome)) && AllActionsFit(RetryProgram(s, m, outcome), clock)
  {
    if RetrySucceeds(s, m, outcome) {
      var r := RetryMessage(s, m, outcome);
      var s1 := s.(raw := s.raw - {m.id});
      SelfReplaceIsMirrored(s, s1, r, clock);
      MirroredCons(s1, DoSet(r), []);
      MirroredCons(s, DropRaw(m.id), [DoSet(r)]);
      assert [DropRaw(m.id)] + [DoSet(r)] == RetryProgram(s, m, outcome);
    }
  }

  lemma SelfReplaceIsMirrored(s: State, s1: State, r: Message, clock: Clock)
    requires Inv(s, clock) && s1.tree == s.tree && s1.nonces == s.nonces
    requires r.id in s.index && (r.nonce == "" || r.nonce == r.id)
    ensures Mirrored(s1, DoSet(r))
  {
    if Replaces(s, r) {
      EntryIsThere(s, r.id, s.nonces[r.id], clock);
    }
  }

  // ---------------------------------------------------------------- events of a page

  /** An entry of the same instant that the order puts between the two identifiers. */
  ghost predicate Between(t: Tree, ts: int, nonce: string, id: string) {
    exists x :: x in t && x.ts == ts && x.id != nonce && LexLess(x.id, nonce) != LexLess(x.id, id)
  }

  /** The list follows an event of a page, read from the tables: an event whose placeholder is replaced
      must be new, and no entry of its instant may lie between the two identifiers. */
  ghost predicate PageMirrors(s: State, item: PageItem) {
    var e := item.event;
    e.Encrypted? && e.head.redactedBecause == None && (e.outcome.Undecryptable? || e.outcome.Decrypted?) ==>
      e.head.id !in s.index && !Between(s.tree, e.head.ts, item.nonce, e.head.id)
  }

  lemma MirroredConsIff(s: State, a: Action, p: seq<Action>)
    ensures AllMirrored(s, [a] + p) <==> Mirrored(s, a) && AllMirrored(Act(s, a), p)
  {
  }

  /** The embeds written back right after the message never matter. */
  lemma SetWithEmbedsIff(s: State, m: Message, embeds: seq<string>, clock: Clock)
    requires Clocked(s, clock) && m.ts == clock(m.id)
    ensures AllMirrored(s, SetWithEmbeds(s.room, m, embeds)) <==> Mirrored(s, DoSet(m))
  {
    var w := m.(roomID := s.room, nonce := "", embeds := embeds);
    var rest := if embeds == [] then [] else [WriteBack(w)];
    MirroredConsIff(s, DoSet(m), rest);
    if embeds != [] {
      MirroredCons(SetState(s, m), WriteBack(w), []) by {
        SetTree(s, m);
        assert Stamped(s, m) in SetState(s, m).tree;
        HasSpec(SetState(s, m).tree, w);
      }
    }
  }

  /** The placeholder of an encrypted event, and what replaces it. */
  lemma PlaceholderFitsIff(s: State, item: PageItem, m: Message, s1: State, clock: Clock)
    requires Inv(s, clock) && Fits(Page(item), clock)
    requires m.id == item.event.head.id && m.ts == item.event.head.ts && m.nonce == item.nonce
    requires var h := item.event.head; s1 == SetState(s, PlaceholderMessage(item.nonce, h.ts, h.sender, ""))
    ensures item.nonce in s1.nonces && Inv(s1, clock)
    ensures ExchangeFits(s1.tree, s1.nonces[item.nonce], Stamped(s1, m)) <==>
            m.id !in s.index && !Between(s.tree, m.ts, item.nonce, m.id)
  {
    var h := item.event.head;
    var p := PlaceholderMessage(item.nonce, h.ts, h.sender, "");
    SetKeepsInv(s, p, clock);
    SetTables(s, p);
    EntryIsThere(s1, item.nonce, s1.nonces[item.nonce], clock);
    HasMeansIndexed(s1, Stamped(s1, m), clock);
    PlaceholderCrossesIff(s, p, m, s1.tree, clock);
    CrossesBetween(s1.tree, s1.nonces[item.nonce], Stamped(s, p), Stamped(s1, m), m);
  }

  lemma CrossesBetween(t: Tree, e: Message, e': Message, m: Message, m': Message)
    requires SameKey(e, e') && SameKey(m, m')
    ensures Crosses(t, e, m) <==> Crosses(t, e', m')
  {
  }

  lemma PlaceholderCrossesIff(s: State, p: Message, m: Message, t: Tree, clock: Clock)
    requires Inv(s, clock) && p.ts == clock(p.id) && p.nonce == "" && m.ts == p.ts && t == SetState(s, p).tree
    ensures Crosses(t, Stamped(s, p), m) <==> Between(s.tree, m.ts, p.id, m.id)
  {
    SetTree(s, p);
    forall x | x in t && !SameKey(x, p) && Before(x, p) != Before(x, m)
      ensures x in s.tree && x.ts == m.ts && x.id != p.id && LexLess(x.id, p.id) != LexLess(x.id, m.id) {}
    forall x | x in s.tree && x.ts == m.ts && x.id != p.id && LexLess(x.id, p.id) != LexLess(x.id, m.id)
      ensures x in t && !SameKey(x, Stamped(s, p)) && Before(x, Stamped(s, p)) != Before(x, m) {}
  }

  /** What replaces a placeholder, in a state that has the tree and the placeholder just set. */
  lemma SettledFitsIff(s: State, item: PageItem, m: Message, s1: State, s2: State, clock: Clock)
    requires Inv(s, clock) && Fits(Page(item), clock)
    requires m.id == item.event.head.id && m.ts == item.event.head.ts && m.nonce == item.nonce
    requires var h := item.event.head; s1 == SetState(s, PlaceholderMessage(item.nonce, h.ts, h.sender, ""))
    requires Clocked(s2, clock) && s2.room == s.room && s2.tree == s1.tree
    requires item.nonce in s1.nonces ==> item.nonce in s2.nonces && s2.nonces[item.nonce] == s1.nonces[item.nonce]
    ensures AllMirrored(s2, SetWithEmbeds(s.room, m, item.embeds)) <==>
            m.id !in s.index && !Between(s.tree, m.ts, item.nonce, m.id)
  {
    PlaceholderFitsIff(s, item, m, s1, clock);
    SetWithEmbedsIff(s2, m, item.embeds, clock);
    SetRoom(s, PlaceholderMessage(item.nonce, m.ts, item.event.head.sender, ""), m);
  }

  lemma SetRoom(s: State, p: Message, m: Message)
    ensures Stamped(SetState(s, p), m) == Stamped(s, m)
  {
  }

  /** Which events of a page have mirrored sections only. */
  lemma PageSectionsIff(s: State, item: PageItem, clock: Clock)
    requires Inv(s, clock) && Fits(Page(item), clock)
    ensures AllMirrored(s, PageProgram(s.room, item)) <==> PageMirrors(s, item)
  {
    var h := item.event.head;
    if item.event.Other? {
    } else if h.redactedBecause.Some? {
      SetWithEmbedsIff(s, RedactedMessage(h, h.redactedBecause.value), item.embeds, clock);
    } else if item.event.Encrypted? {
      EncryptedIsMirroredIff(s, item, clock);
    } else if item.event.content.Some? {
      SetWithEmbedsIff(s, EventMessage(h, item.event.content.value, ""), item.embeds, clock);
    }
  }

  lemma EncryptedIsMirroredIff(s: State, item: PageItem, clock: Clock)
    requires Inv(s, clock) && Fits(Page(item), clock)
    requires item.event.Encrypted? && item.event.head.redactedBecause == None
    ensures AllMirrored(s, PageProgram(s.room, item)) <==> PageMirrors(s, item)
  {
    var h, outcome := item.event.head, item.event.outcome;
    var p := PlaceholderMessage(item.nonce, h.ts, h.sender, "");
    var s1 := SetState(s, p);
    MirroredConsIff(s, DoSet(p), AfterPlaceholder(s.room, item, outcome));
    SetKeepsInv(s, p, clock);
    SetTables(s, p);
    match outcome
    case Undecryptable => StoredIsMirroredIff(s, item, s1, clock);
    case NotAMessage =>
    case RedactedInside(reason) => SetWithEmbedsIff(s1, RedactedMessage(h, reason), item.embeds, clock);
    case Decrypted(content) => SettledFitsIff(s, item, EventMessage(h, content, item.nonce), s1, s1, clock);
  }

  lemma MirroredFrontIff(s: State, a: Action, b: Action, p: seq<Action>)
    requires !a.DoSet? && !a.WriteBack? && !b.DoSet? && !b.WriteBack?
    ensures AllMirrored(s, [a, b] + p) <==> AllMirrored(Act(Act(s, a), b), p)
  {
  }

  /** Storing an event and its message for a retry. */
  lemma KeptForRetry(s: State, h: EventHead, m: Message, clock: Clock) returns (s': State)
    requires Clocked(s, clock) && m.ts == clock(m.id)
    ensures s' == Act(Act(s, StoreRaw(h)), StoreNonce(m))
    ensures Clocked(s', clock) && s'.tree == s.tree && s'.room == s.room
    ensures forall k :: k in s.nonces && k != m.id ==> k in s'.nonces && s'.nonces[k] == s.nonces[k]
  {
    s' := Act(Act(s, StoreRaw(h)), StoreNonce(m));
  }

  lemma StoredIsMirroredIff(s: State, item: PageItem, s1: State, clock: Clock)
    requires Inv(s, clock) && Fits(Page(item), clock) && Clocked(s1, clock) && s1.room == s.room
    requires var h := item.event.head; s1 == SetState(s, PlaceholderMessage(item.nonce, h.ts, h.sender, ""))
    ensures AllMirrored(s1, AfterPlaceholder(s.room, item, Undecryptable)) <==>
            item.event.head.id !in s.index && !Between(s.tree, item.event.head.ts, item.nonce, item.event.head.id)
  {
    var h := item.event.head;
    var m := UndecryptableMessage(h, item.nonce);
    var s2 := KeptForRetry(s1, h, m, clock);
    SettledFitsIff(s, item, m, s1, s2, clock);
    MirroredFrontIff(s1, StoreRaw(h), StoreNonce(m), SetWithEmbeds(s.room, m, item.embeds));
  }

  // ---------------------------------------------------------------- the list after an event of a page

  /** The list of the tree, patched through the sections, is the list of the tree again. */
  predicate ListFollows(s: State, p: seq<Action>) {
    PatchAll(Ids(s.tree), EmitAll(s, p)) == Ids(ActAll(s, p).tree)
  }

  lemma PatchSection(dom: Dom, s: State, a: Action, p: seq<Action>)
    ensures PatchAll(dom, EmitAll(s, [a] + p)) == PatchAll(PatchAll(dom, Emit(s, a)), EmitAll(Act(s, a), p))
    ensures PatchAll(dom, EmitAll(s, [a])) == PatchAll(dom, Emit(s, a))
  {
    EmitCons(s, a, p);
    PatchAllAppend(dom, Emit(s, a), EmitAll(Act(s, a), p));
  }

  /** Swapping an element for itself changes nothing. */
  lemma {:induction false} SwapItself(dom: Dom, x: string)
    ensures Swap(dom, x, [x]) == dom
  {
    if dom != [] {
      SwapItself(dom[1..], x);
      assert dom == [dom[0]] + dom[1..];
    }
  }

  /** After a mirrored section the rest decides. */
  lemma MirroredPrefix(s: State, a: Action, p: seq<Action>, clock: Clock)
    requires Clocked(s, clock) && ActionFits(a, clock) && Mirrored(s, a)
    ensures ListFollows(s, [a] + p) <==> ListFollows(Act(s, a), p)
    ensures AllMirrored(s, [a] + p) <==> AllMirrored(Act(s, a), p)
  {
    ActIsMirroredIff(s, a, clock);
    PatchSection(Ids(s.tree), s, a, p);
    ActCons(s, a, p);
    MirroredConsIff(s, a, p);
  }

  lemma SetListIff(s: State, m: Message, clock: Clock)
    requires Clocked(s, clock) && m.ts == clock(m.id)
    ensures ListFollows(s, [DoSet(m)]) <==> Mirrored(s, DoSet(m))
  {
    ActIsMirroredIff(s, DoSet(m), clock);
    ActCons(s, DoSet(m), []);
    EmitCons(s, DoSet(m), []);
  }

  /** An embed written back for an entry that is there patches nothing and moves nothing. */
  lemma WriteBackKeepsList(dom: Dom, t: Tree, w: Message, clock: Clock)
    requires ClockedTree(t, clock) && Has(t, w)
    ensures PatchAll(dom, [UpdateEvent(w, "", Neighbors(None, None))]) == dom && Ids(Put(t, w)) == Ids(t)
  {
    PatchOne(dom, UpdateEvent(w, "", Neighbors(None, None)));
    SwapItself(dom, w.id);
    PutIds(t, w);
  }

  lemma EmbedsKeepList(s: State, m: Message, w: Message, clock: Clock)
    requires Clocked(s, clock) && m.ts == clock(m.id) && SameKey(w, m)
    ensures ListFollows(s, [DoSet(m)] + [WriteBack(w)]) <==> ListFollows(s, [DoSet(m)])
  {
    var s1 := SetState(s, m);
    var dom1 := PatchAll(Ids(s.tree), Emit(s, DoSet(m)));
    ClockedStep(s, DoSet(m), clock);
    assert Has(s1.tree, w) by {
      SetTree(s, m);
      assert Stamped(s, m) in s1.tree;
      HasSpec(s1.tree, w);
    }
    PatchSection(Ids(s.tree), s, DoSet(m), [WriteBack(w)]);
    EmitCons(s1, WriteBack(w), []);
    WriteBackKeepsList(dom1, s1.tree, w, clock);
    ActCons(s, DoSet(m), [WriteBack(w)]);
    ActCons(s1, WriteBack(w), []);
  }

  lemma SetWithEmbedsListIff(s: State, m: Message, embeds: seq<string>, clock: Clock)
    requires Clocked(s, clock) && m.ts == clock(m.id)
    ensures ListFollows(s, SetWithEmbeds(s.room, m, embeds)) <==> Mirrored(s, DoSet(m))
  {
    SetListIff(s, m, clock);
    if embeds != [] {
      EmbedsKeepList(s, m, m.(roomID := s.room, nonce := "", embeds := embeds), clock);
    } else {
      assert SetWithEmbeds(s.room, m, embeds) == [DoSet(m)];
    }
  }
  lemma SettledListIff(s: State, m: Message, embeds: seq<string>, clock: Clock)
    requires Clocked(s, clock) && m.ts == clock(m.id)
    ensures ListFollows(s, SetWithEmbeds(s.room, m, embeds)) <==> AllMirrored(s, SetWithEmbeds(s.room, m, embeds))
  {
    SetWithEmbedsIff(s, m, embeds, clock);
    SetWithEmbedsListIff(s, m, embeds, clock);
  }

  lemma StoredListIff(s: State, item: PageItem, clock: Clock)
    requires Clocked(s, clock) && HeadFits(item.event.head, clock)
    ensures ListFollows(s, AfterPlaceholder(s.room, item, Undecryptable)) <==>
            AllMirrored(s, AfterPlaceholder(s.room, item, Undecryptable))
  {
    var h := item.event.head;
    var m := UndecryptableMessage(h, item.nonce);
    var s2 := KeptForRetry(s, h, m, clock);
    var rest := SetWithEmbeds(s.room, m, item.embeds);
    SettledListIff(s2, m, item.embeds, clock);
    QuietThen(s, StoreRaw(h), StoreNonce(m), rest);
    MirroredFrontIff(s, StoreRaw(h), StoreNonce(m), rest);
    assert AfterPlaceholder(s.room, item, Undecryptable) == [StoreRaw(h), StoreNonce(m)] + rest;
  }

  lemma AfterPlaceholderListIff(s: State, item: PageItem, outcome: Decryption, clock: Clock)
    requires Clocked(s, clock) && HeadFits(item.event.head, clock)
    ensures ListFollows(s, AfterPlaceholder(s.room, item, outcome)) <==> AllMirrored(s, AfterPlaceholder(s.room, item, outcome))
  {
    var h := item.event.head;
    match outcome
    case Undecryptable => StoredListIff(s, item, clock);
    case NotAMessage =>
    case RedactedInside(reason) => SettledListIff(s, RedactedMessage(h, reason), item.embeds, clock);
    case Decrypted(content) => SettledListIff(s, EventMessage(h, content, item.nonce), item.embeds, clock);
  }

  lemma PageListIff(s: State, item: PageItem, clock: Clock)
    requires Inv(s, clock) && Fits(Page(item), clock)
    ensures ListFollows(s, PageProgram(s.room, item)) <==> AllMirrored(s, PageProgram(s.room, item))
  {
    var h := item.event.head;
    if item.event.Other? {
    } else if h.redactedBecause.Some? {
      SettledListIff(s, RedactedMessage(h, h.redactedBecause.value), item.embeds, clock);
    } else if item.event.Encrypted? {
      var p := PlaceholderMessage(item.nonce, h.ts, h.sender, "");
      ClockedStep(s, DoSet(p), clock);
      SetTables(s, p);
      AfterPlaceholderListIff(SetState(s, p), item, item.event.outcome, clock);
      MirroredPrefix(s, DoSet(p), AfterPlaceholder(s.room, item, item.event.outcome), clock);
    } else if item.event.content.Some? {
      SettledListIff(s, EventMessage(h, item.event.content.value, ""), item.embeds, clock);
    }
  }

  /** Exactly: a list that shows the tree shows it after an event of a page if and only if the event's
      placeholder is not replaced, or the event is new and no entry of its instant lies between the two
      identifiers. */
  lemma PageIsMirroredIff(s: State, item: PageItem, clock: Clock)
    requires Inv(s, clock) && Fits(Page(item), clock)
    ensures PatchAll(Ids(s.tree), EmitAll(s, PageProgram(s.room, item))) == Ids(Do(s, Page(item)).tree)
            <==> PageMirrors(s, item)
  {
    PageSectionsIff(s, item, clock);
    PageListIff(s, item, clock);
  }

  // ---------------------------------------------------------------- completed steps

  /** What a completed step must meet for the list to follow it. Sends and redactions always do. */
  ghost predicate StepMirrors(s: State, step: Step) {
    match step
    case LocalSend(_, _, _, _) => true
    case Live(h, content, txn) =>
      if IsPlaceholder(txn) then
        txn in s.nonces ==> h.id !in s.index && !Crosses(s.tree, s.nonces[txn], EventMessage(h, content, txn))
      else Mirrored(s, DoSet(EventMessage(h, content, txn)))
    case Page(item) => PageMirrors(s, item)
    case Embeds(m) => m.id in s.index
    case Redaction(_, _) => true
    case Retry(m, _) => m.id in s.index
  }

  lemma StepIsMirrored(s: State, step: Step, clock: Clock)
    requires Inv(s, clock) && Fits(step, clock) && StepMirrors(s, step)
    ensures AllMirrored(s, Program(s, step)) && AllActionsFit(Program(s, step), clock)
  {
    match step
    case LocalSend(nonce, ts, author, content) =>
      MirroredCons(s, DoSet(PlaceholderMessage(nonce, ts, author, content)), []);
    case Live(h, content, txn) =>
      if IsPlaceholder(txn) && txn in s.nonces {
        EchoFitsIff(s, h, content, txn, clock);
      }
      MirroredCons(s, DoSet(EventMessage(h, content, txn)), []);
    case Page(item) =>
      PageSectionsIff(s, item, clock);
      PageActionsFit(s.room, item, clock);
    case Embeds(m) =>
      HasMeansIndexed(s, m, clock);
      MirroredCons(s, WriteBack(m), []);
    case Redaction(id, reason) => RedactionIsMirrored(s, id, reason, clock);
    case Retry(m, outcome) => RetryIsMirrored(s, m, outcome, clock);
  }

  lemma PageActionsFit(room: string, item: PageItem, clock: Clock)
    requires Fits(Page(item), clock)
    ensures AllActionsFit(PageProgram(room, item), clock)
  {
  }

  function EmitSteps(s: State, steps: seq<Step>): seq<TreeEvent>
    decreases |steps|
  {
    if steps == [] then [] else EmitAll(s, Program(s, steps[0])) + EmitSteps(Do(s, steps[0]), steps[1..])
  }

  ghost predicate AllStepsMirror(s: State, steps: seq<Step>)
    decreases |steps|
  {
    steps == [] || (StepMirrors(s, steps[0]) && AllStepsMirror(Do(s, steps[0]), steps[1..]))
  }

  /** The mirror: after any run of sends, sync messages, page events, embeds, redactions and retries
      that meet the conditions, the list patched event by event is the list of the tree. */
  lemma {:induction false} StepsAreMirrored(s: State, steps: seq<Step>, clock: Clock)
    requires Inv(s, clock) && AllFit(steps, clock) && AllStepsMirror(s, steps)
    ensures PatchAll(Ids(s.tree), EmitSteps(s, steps)) == Ids(DoAll(s, steps).tree)
    decreases |steps|
  {
    if steps != [] {
      var s1 := Do(s, steps[0]);
      StepIsMirrored(s, steps[0], clock);
      RunIsMirrored(s, Program(s, steps[0]), clock);
      StepKeepsInv(s, steps[0], clock);
      StepsAreMirrored(s1, steps[1..], clock);
      PatchAllAppend(Ids(s.tree), EmitAll(s, Program(s, steps[0])), EmitSteps(s1, steps[1..]));
    }
  }

  // ---------------------------------------------------------------- where it fails

  function ExampleClock(id: string): int {
    if id == "pending-1" then 1 else if id == "c2" then 2 else 3
  }

  const SENT := LocalSend("pending-1", 1, "@a", "hi")

  const ECHO := EventMessage(EventHead("c3", 3, "@a", None), "hi", "pending-1")

  /** The tables after a local send and one more message, from the empty timeline. */
  lemma SendThen(step: Step, h: EventHead, content: string) returns (s: State, p: Message, m: Message)
    requires HeadFits(h, ExampleClock) && h.id != "pending-1" && h.ts > 1
    requires Program(Do(Empty("!r"), SENT), step) == [DoSet(EventMessage(h, content, ""))]
    requires Fits(step, ExampleClock)
    ensures s == DoAll(Empty("!r"), [SENT, step]) && AllFit([SENT, step], ExampleClock)
    ensures SentAndLater(s, p, m) && m.id == h.id && m.ts == h.ts
  {
    var p0, m0 := PlaceholderMessage("pending-1", 1, "@a", "hi"), EventMessage(h, content, "");
    var s1 := SetState(Empty("!r"), p0);
    s := SetState(s1, m0);
    p, m := p0.(roomID := "!r"), m0.(roomID := "!r");
    assert "pending-" <= "pending-1";
    DoTwo(Empty("!r"), SENT, step);
    ActCons(Empty("!r"), DoSet(p0), []);
    ActCons(s1, DoSet(m0), []);
    TwoItems(p, m, m);
    SetTables(Empty("!r"), p0);
    SetTreeIs(Empty("!r"), p0);
    SetTables(s1, m0);
    SetTreeIs(s1, m0);
  }

  /** The placeholder of the send and one later message. */
  ghost predicate SentAndLater(s: State, p: Message, m: Message) {
    && s.tree == [p, m] && p.id == "pending-1" && p.ts == 1 && m.id != "pending-1" && m.ts > 1
    && s.pendingRedactions == map[] && "pending-1" in s.nonces && s.nonces["pending-1"] == p
  }

  lemma EchoPatch(s: State, p: Message, m: Message) returns (e: TreeEvent)
    requires SentAndLater(s, p, m)
    ensures Emit(s, DoSet(ECHO)) == [e] && PatchFor(e) == Replace("pending-1", "c3")
  {
    e := SetEvent(s, ECHO);
    assert Replaces(s, ECHO) && Settled(s, ECHO) == Stamped(s, ECHO);
  }

  /** The list after the echo of the send, and the tree. */
  lemma EchoList(s: State, p: Message, m: Message)
    requires SentAndLater(s, p, m)
    ensures PatchAll(Ids(s.tree), Emit(s, DoSet(ECHO))) == ["c3", m.id]
  {
    var e := EchoPatch(s, p, m);
    PatchOne(Ids(s.tree), e);
    FirstSwapped(Ids(s.tree), "pending-1", m.id, "c3");
  }

  lemma FirstSwapped(dom: Dom, a: string, b: string, x: string)
    requires dom == [a, b] && a != b
    ensures Patched(dom, Replace(a, x)) == [x, b]
  {
    SwapAt(dom, 0, [x]);
  }

  lemma EchoTree(s: State, p: Message, m: Message)
    requires SentAndLater(s, p, m)
    ensures SetState(s, ECHO).tree == Put([m], Stamped(s, ECHO))
  {
    BeforeTotal(p, p);
    assert Seek([p, m], p) == 0 && Drop([p, m], p) == [m];
    SetTreeIs(s, ECHO);
  }

  /** The server stamps the echo later than a message that arrived in between: the list shows the
      echo where the placeholder was, before that message, and the tree has it after. */
  lemma CrossingEchoIsMisplaced()
    ensures var steps := [SENT, Live(EventHead("c2", 2, "@b", None), "yo", "")];
            var s := DoAll(Empty("!r"), steps);
      && AllFit(steps, ExampleClock)
      && PatchAll(Ids(s.tree), Emit(s, DoSet(ECHO))) == ["c3", "c2"]
      && Ids(SetState(s, ECHO).tree) == ["c2", "c3"]
  {
    var h := EventHead("c2", 2, "@b", None);
    assert !IsPlaceholder("c2");
    var s, p, m := SendThen(Live(h, "yo", ""), h, "yo");
    EchoList(s, p, m);
    EchoTree(s, p, m);
    TwoItems(m, Stamped(s, ECHO), Stamped(s, ECHO));
  }

  /** A history page brings the sent message before its echo does: the list then shows it twice. */
  lemma RepeatedEchoIsDoubled()
    ensures var h := EventHead("c3", 3, "@a", None);
            var steps := [SENT, Page(PageItem(Plain(h, Some("hi")), "decrypting-1", []))];
            var s := DoAll(Empty("!r"), steps);
      && AllFit(steps, ExampleClock)
      && PatchAll(Ids(s.tree), Emit(s, DoSet(ECHO))) == ["c3", "c3"]
      && Ids(SetState(s, ECHO).tree) == ["c3"]
  {
    var h := EventHead("c3", 3, "@a", None);
    var item := PageItem(Plain(h, Some("hi")), "decrypting-1", []);
    assert !IsPlaceholder("c3") && "decrypting-" <= "decrypting-1";
    assert PageProgram("!r", item) == [DoSet(EventMessage(h, "hi", ""))];
    var s, p, m := SendThen(Page(item), h, "hi");
    EchoList(s, p, m);
    EchoTree(s, p, m);
    BeforeTotal(m, Stamped(s, ECHO));
    assert Seek([m], Stamped(s, ECHO)) == 0;
  }

  lemma OrderOfFour(a: Action, b: Action, c: Action, w: Action)
    ensures var threads: seq<seq<Action>> := [[a, b, c], [w]];
            Complete(threads, [0, 0, 1, 0]) && Order(threads, [0, 0, 1, 0]) == [a, b, w, c]
  {
    var t0: seq<seq<Action>>, t1: seq<seq<Action>> := [[a, b, c], [w]], [[b, c], [w]];
    var t2: seq<seq<Action>>, t3: seq<seq<Action>> := [[c], [w]], [[c], []];
    var t4: seq<seq<Action>> := [[], []];
    assert t0[0 := t0[0][1..]] == t1 && t1[0 := t1[0][1..]] == t2;
    assert [w][1..] == [] && [c][1..] == [];
    assert t2[1 := t2[1][1..]] == t3 && t3[0 := t3[0][1..]] == t4;
    assert Complete(t4, []) && Complete(t3, [0]) && [1, 0][1..] == [0];
    assert Complete(t2, [1, 0]) && [0, 1, 0][1..] == [1, 0];
    assert Complete(t1, [0, 1, 0]) && [0, 0, 1, 0][1..] == [0, 1, 0];
    assert Order(t3, [0]) == [c] + Order(t4, []);
    assert Order(t2, [1, 0]) == [w] + Order(t3, [0]);
    assert Order(t1, [0, 1, 0]) == [b] + Order(t2, [1, 0]);
  }

  lemma PatchTwo(dom: Dom, s: State, a: Action, b: Action)
    ensures PatchAll(dom, EmitAll(s, [a, b])) == PatchAll(PatchAll(dom, Emit(s, a)), Emit(Act(s, a), b))
  {
    assert [a] + [b] == [a, b];
    PatchSection(dom, s, a, [b]);
    PatchSection(PatchAll(dom, Emit(s, a)), Act(s, a), b, []);
  }

  /** Four sections of which the first announces nothing. */
  lemma FourPatches(dom: Dom, s: State, a: Action, b: Action, w: Action, c: Action)
    requires Emit(s, a) == []
    ensures var s1, s2, s3 := Act(s, a), Act(Act(s, a), b), Act(Act(Act(s, a), b), w);
      && ActAll(s, [a, b, w, c]) == Act(s3, c)
      && PatchAll(dom, EmitAll(s, [a, b, w, c])) == PatchAll(PatchAll(PatchAll(dom, Emit(s1, b)), Emit(s2, w)), Emit(s3, c))
  {
    var s1 := Act(s, a);
    assert [a, b, w, c] == [a] + [b, w, c] && [b, w, c] == [b] + [w, c];
    ActCons(s, a, [b, w, c]);
    ActThree(s1, b, w, c);
    PatchSection(dom, s, a, [b, w, c]);
    PatchSection(dom, s1, b, [w, c]);
    PatchTwo(PatchAll(dom, Emit(s1, b)), Act(s1, b), w, c);
  }

  /** After `DeleteMessage` the list is that of the tree, without the message. */
  lemma RemovedFromList(s: State, m: Message, clock: Clock)
    requires Clocked(s, clock) && m.ts == clock(m.id)
    ensures var list := Ids(Act(s, DropTree(m)).tree);
            m.id !in list && PatchAll(Ids(s.tree), Emit(s, DropTree(m))) == list
  {
    ActIsMirroredIff(s, DropTree(m), clock);
    DropSpec(s.tree, m);
    HasSpec(Drop(s.tree, m), m);
    HasIsId(Drop(s.tree, m), m, clock);
  }

  /** Embeds written back for it bring it back to the tree and not to the list. */
  lemma WrittenBackUnseen(list: Dom, s: State, w: Message, clock: Clock)
    requires Clocked(s, clock) && w.ts == clock(w.id) && w.id !in list
    ensures PatchAll(list, Emit(s, WriteBack(w))) == list && Clocked(Act(s, WriteBack(w)), clock)
    ensures w in Act(s, WriteBack(w)).tree
  {
    OtherPatches(list, s, WriteBack(w));
    SwapAbsent(list, w.id, [w.id]);
    PutSpec(s.tree, w);
  }

  /** The sections of `EmbedInRedaction`, with the list after each. */
  lemma RedactedUnseen(s: State, m: Message, w: Message, r: Message, clock: Clock)
    requires Clocked(s, clock) && m.ts == clock(m.id) && SameKey(w, m) && SameKey(r, m) && r.nonce == ""
    requires r.id != "" && !IsPlaceholder(m.id)
    ensures var p := [TakeIndex(m.id), DropTree(m), WriteBack(w), DoSet(r)];
            m.id in Ids(ActAll(s, p).tree) && m.id !in PatchAll(Ids(s.tree), EmitAll(s, p))
  {
    var s1 := Act(s, TakeIndex(m.id));
    var s2 := Act(s1, DropTree(m));
    var s3 := Act(s2, WriteBack(w));
    FourPatches(Ids(s.tree), s, TakeIndex(m.id), DropTree(m), WriteBack(w), DoSet(r));
    ClockedStep(s1, DropTree(m), clock);
    RemovedFromList(s1, m, clock);
    WrittenBackUnseen(Ids(s2.tree), s2, w, clock);
    HasSpec(s3.tree, Stamped(s3, r));
    SetAgainUnseen(Ids(s2.tree), s3, r, clock);
  }

  /** Setting a message that the tree has and the list lacks does not bring it back to the list. */
  lemma SetAgainUnseen(list: Dom, s: State, r: Message, clock: Clock)
    requires Clocked(s, clock) && r.ts == clock(r.id) && r.nonce == "" && Has(s.tree, Stamped(s, r)) && r.id !in list
    ensures PatchAll(list, Emit(s, DoSet(r))) == list && r.id in Ids(Act(s, DoSet(r)).tree)
  {
    var list', t' := SetEffect(list, s, r, clock);
    SwapAbsent(list, r.id, [r.id]);
    PutIds(s.tree, Stamped(s, r));
    HasIsId(s.tree, Stamped(s, r), clock);
  }

  /** Embeds of an entry are written back between the two halves of its redaction: the tree has the
      message in the end and the list does not show it. */
  ghost predicate RedactionUnseen(s: State, id: string, reason: string, embeds: seq<string>) {
    id in s.index &&
    var threads, sched := [RedactionProgram(s, id, reason), [WriteBack(s.index[id].(embeds := embeds))]], [0, 0, 1, 0];
    && Complete(threads, sched)
    && id in Ids(Interleave(s, threads, sched).tree)
    && id !in PatchAll(Ids(s.tree), EmitAll(s, Order(threads, sched)))
  }

  /** That happens to every entry, if the schedule is so. */
  lemma EmbedInRedaction(s: State, id: string, reason: string, embeds: seq<string>, clock: Clock)
    requires Inv(s, clock) && !IsPlaceholder(id) && id != "" && id in s.index
    ensures RedactionUnseen(s, id, reason, embeds)
  {
    var m := s.index[id];
    var w, r := m.(embeds := embeds), RedactedFrom(m, reason);
    var threads := [RedactionProgram(s, id, reason), [WriteBack(w)]];
    assert m in s.tree;
    OrderOfFour(TakeIndex(id), DropTree(m), DoSet(r), WriteBack(w));
    InterleaveIsOrder(s, threads, [0, 0, 1, 0]);
    RedactedUnseen(s, m, w, r, clock);
  }

  /** For one, in a timeline of a single message with a link. */
  lemma EmbedInFirstRedaction()
    ensures var step := Live(EventHead("c2", 2, "@b", None), "https://x", "");
            Fits(step, ExampleClock) && RedactionUnseen(Do(Empty("!r"), step), "c2", "spam", ["card"])
  {
    var h := EventHead("c2", 2, "@b", None);
    var step, m := Live(h, "https://x", ""), EventMessage(h, "https://x", "");
    assert !IsPlaceholder("c2");
    ActCons(Empty("!r"), DoSet(m), []);
    SetTables(Empty("!r"), m);
    StepKeepsInv(Empty("!r"), step, ExampleClock);
    EmbedInRedaction(Do(Empty("!r"), step), "c2", "spam", ["card"], ExampleClock);
  }
}
