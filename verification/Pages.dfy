/** What a history page leaves in the timeline, whatever the order of its goroutines. */
module Pages {
  import opened Wrappers
  import opened Messages
  import opened SortedTree
  import opened Timeline
  import opened Runs
  import opened Schedule

  function Threads(room: string, items: seq<PageItem>): (r: seq<seq<Action>>)
    ensures |r| == |items| && forall i :: 0 <= i < |items| ==> r[i] == PageProgram(room, items[i])
  {
    seq(|items|, i requires 0 <= i < |items| => PageProgram(room, items[i]))
  }

  function Foot(item: PageItem): set<string> {
    {item.event.head.id, item.nonce}
  }

  function Feet(items: seq<PageItem>): (r: seq<set<string>>)
    ensures |r| == |items| && forall i :: 0 <= i < |items| ==> r[i] == Foot(items[i])
  {
    seq(|items|, i requires 0 <= i < |items| => Foot(items[i]))
  }

  /** The events of a page have distinct identifiers and each draws a nonce of its own. */
  predicate Distinct(items: seq<PageItem>) {
    && (forall i :: 0 <= i < |items| ==> items[i].nonce != "" && items[i].nonce != items[i].event.head.id)
    && (forall i, j :: 0 <= i < j < |items| ==> Foot(items[i]) !! Foot(items[j]))
  }

  lemma ProgramWithin(room: string, item: PageItem)
    ensures Within(PageProgram(room, item), Foot(item))
  {
  }

  lemma PageApart(room: string, items: seq<PageItem>)
    requires Distinct(items)
    ensures Apart(Threads(room, items), Feet(items))
  {
    forall i | 0 <= i < |items| ensures Within(Threads(room, items)[i], Feet(items)[i]) {
      ProgramWithin(room, items[i]);
    }
  }

  /** The page as a run of completed steps, one event after the other. */
  function Steps(items: seq<PageItem>): (r: seq<Step>)
    ensures |r| == |items| && forall i :: 0 <= i < |items| ==> r[i] == Page(items[i])
  {
    seq(|items|, i requires 0 <= i < |items| => Page(items[i]))
  }

  lemma {:induction false} RoomStays(s: State, p: seq<Action>)
    requires Solid(s)
    ensures Solid(ActAll(s, p)) && ActAll(s, p).room == s.room
    decreases |p|
  {
    if p != [] {
      ActItems(s, p[0]);
      RoomStays(Act(s, p[0]), p[1..]);
    }
  }

  lemma {:induction false} OneByOneIsSteps(s: State, items: seq<PageItem>)
    requires Solid(s)
    ensures OneByOne(s, Threads(s.room, items)) == DoAll(s, Steps(items))
    decreases |items|
  {
    if items != [] {
      var s1 := ActAll(s, PageProgram(s.room, items[0]));
      RoomStays(s, PageProgram(s.room, items[0]));
      OneByOneIsSteps(s1, items[1..]);
      assert Threads(s.room, items)[1..] == Threads(s.room, items[1..]);
      assert Steps(items)[1..] == Steps(items[1..]);
    }
  }

  predicate PageFits(items: seq<PageItem>, clock: Clock) {
    forall i :: 0 <= i < |items| ==>
      var h := items[i].event.head;
      HeadFits(h, clock) && IsPlaceholder(items[i].nonce) && h.ts == clock(items[i].nonce)
  }

  /** Every schedule of a page ends where its events end one after the other, and keeps the invariant. */
  lemma PageIndependent(s: State, items: seq<PageItem>, sched: seq<nat>, clock: Clock)
    requires Inv(s, clock) && PageFits(items, clock) && Distinct(items)
    requires Complete(Threads(s.room, items), sched)
    ensures Interleave(s, Threads(s.room, items), sched) == DoAll(s, Steps(items))
    ensures Inv(Interleave(s, Threads(s.room, items), sched), clock)
  {
    PageApart(s.room, items);
    ScheduleIndependent(s, Threads(s.room, items), Feet(items), sched);
    OneByOneIsSteps(s, items);
    RunKeepsInv(s, Steps(items), clock);
  }

  // ---------------------------------------------------------------- what each event leaves

  /** The events whose placeholder nothing replaces. */
  predicate LeavesPlaceholder(e: RoomEvent) {
    e.Encrypted? && e.head.redactedBecause == None && (e.outcome.NotAMessage? || e.outcome.RedactedInside?)
  }

  /** The message an event ends as, before embeds. */
  function MessageOf(e: RoomEvent): Option<Message> {
    var h := e.head;
    if e.Other? then None
    else if h.redactedBecause.Some? then Some(RedactedMessage(h, h.redactedBecause.value))
    else
      match e
      case Encrypted(_, Undecryptable) => Some(UndecryptableMessage(h, ""))
      case Encrypted(_, RedactedInside(reason)) => Some(RedactedMessage(h, reason))
      case Encrypted(_, Decrypted(content)) => Some(EventMessage(h, content, ""))
      case Plain(_, Some(content)) => Some(EventMessage(h, content, ""))
      case _ => None
  }

  function FinalMessage(room: string, item: PageItem): Option<Message> {
    match MessageOf(item.event)
    case None => None
    case Some(m) => Some(m.(roomID := room, embeds := item.embeds))
  }

  /** The content an event ends with and its marks, read off the event. */
  predicate EndsAs(e: RoomEvent, content: string, redacted: bool, undecryptable: bool) {
    if e.Other? then false
    else if e.head.redactedBecause.Some? then
      content == e.head.redactedBecause.value && redacted && !undecryptable
    else if e.Plain? then
      e.content == Some(content) && !redacted && !undecryptable
    else
      match e.outcome
      case Undecryptable => content == "" && !redacted && undecryptable
      case NotAMessage => false
      case RedactedInside(reason) => content == reason && redacted && !undecryptable
      case Decrypted(text) => content == text && !redacted && !undecryptable
  }

  /** The final message of an event, field by field. */
  lemma FinalMessageFields(room: string, item: PageItem, x: Message)
    ensures FinalMessage(room, item) == Some(x) <==>
      var h := item.event.head;
      && x.id == h.id && x.ts == h.ts && x.author == h.sender
      && x.roomID == room && x.nonce == "" && x.embeds == item.embeds
      && EndsAs(item.event, x.content, x.redacted, x.undecryptable)
  {
  }

  /** The entry under the identifier of the event afterwards. */
  ghost predicate LeavesEntry(s: State, item: PageItem, f: State) {
    At(f.index, item.event.head.id) ==
      if FinalMessage(s.room, item).Some? then FinalMessage(s.room, item) else At(s.index, item.event.head.id)
  }

  /** The placeholder stays exactly if nothing replaces it, and then it can still be replaced. */
  ghost predicate LeavesNonce(item: PageItem, f: State) {
    && (item.nonce in f.index <==> LeavesPlaceholder(item.event))
    && (item.nonce in f.nonces <==> LeavesPlaceholder(item.event))
  }

  ghost predicate Fresh(s: State, nonce: string) {
    nonce !in s.index && nonce !in s.nonces
  }

  lemma SetWithEmbedsLeaves(s: State, m: Message, embeds: seq<string>)
    requires Solid(s) && !IsPlaceholder(m.id) && m.embeds == []
    ensures var f := ActAll(s, SetWithEmbeds(s.room, m, embeds));
      && f.index == (s.index - Gone(s, m))[m.id := Stamped(s, m).(embeds := embeds)]
      && f.nonces == s.nonces - Gone(s, m)
  {
    var s1, w := SetState(s, m), m.(roomID := s.room, nonce := "", embeds := embeds);
    var base := s.index - Gone(s, m);
    assert s1.index == base[m.id := Stamped(s, m)] && s1.nonces == s.nonces - Gone(s, m) by {
      SetTables(s, m);
    }
    if embeds == [] {
      assert [DoSet(m)] + [] == [DoSet(m)];
      ActCons(s, DoSet(m), []);
      assert w == Stamped(s, m);
    } else {
      assert [DoSet(m)] + [WriteBack(w)] == [DoSet(m), WriteBack(w)];
      ActTwo(s, DoSet(m), WriteBack(w));
      Overwrite(base, m.id, Stamped(s, m), w);
    }
  }

  lemma Overwrite(base: map<string, Message>, k: string, v: Message, w: Message)
    ensures base[k := v][k := w] == base[k := w]
  {
  }

  lemma UndecryptableLeaves(s: State, h: EventHead, nonce: string, embeds: seq<string>, s2: State)
    requires Solid(s) && !IsPlaceholder(h.id) && nonce != "" && nonce != h.id && nonce in s.nonces
    requires s2 == Act(Act(s, StoreRaw(h)), StoreNonce(UndecryptableMessage(h, nonce)))
    ensures var m := UndecryptableMessage(h, nonce);
            var f := ActAll(s2, SetWithEmbeds(s.room, m, embeds));
      && f.index == (s.index - {nonce})[m.id := Stamped(s, m).(embeds := embeds)]
      && f.nonces == s.nonces[m.id := m] - {nonce}
  {
    assert s2.index - {nonce} == s.index - {nonce};
    SetWithEmbedsLeaves(s2, UndecryptableMessage(h, nonce), embeds);
  }

  lemma UndecryptableAfter(s: State, item: PageItem)
    requires Solid(s) && !IsPlaceholder(item.event.head.id) && IsPlaceholder(item.nonce) && item.nonce in s.nonces
    ensures var m := UndecryptableMessage(item.event.head, item.nonce);
            var f := ActAll(s, AfterPlaceholder(s.room, item, Undecryptable));
      && f.index == (s.index - {item.nonce})[m.id := Stamped(s, m).(embeds := item.embeds)]
      && f.nonces == s.nonces[m.id := m] - {item.nonce}
  {
    var h := item.event.head;
    var m := UndecryptableMessage(h, item.nonce);
    UndecryptableLeaves(s, h, item.nonce, item.embeds, Act(Act(s, StoreRaw(h)), StoreNonce(m)));
    ActFront(s, StoreRaw(h), StoreNonce(m), SetWithEmbeds(s.room, m, item.embeds));
  }

  lemma ItemLeaves(s: State, item: PageItem)
    requires Solid(s) && IsPlaceholder(item.nonce) && !IsPlaceholder(item.event.head.id)
    ensures LeavesEntry(s, item, ActAll(s, PageProgram(s.room, item)))
    ensures Fresh(s, item.nonce) ==> LeavesNonce(item, ActAll(s, PageProgram(s.room, item)))
  {
    var h := item.event.head;
    if item.event.Other? {
    } else if h.redactedBecause.Some? {
      SetWithEmbedsLeaves(s, RedactedMessage(h, h.redactedBecause.value), item.embeds);
    } else if item.event.Encrypted? {
      EncryptedLeaves(s, item);
    } else if item.event.content.Some? {
      SetWithEmbedsLeaves(s, EventMessage(h, item.event.content.value, ""), item.embeds);
    }
  }

  lemma EncryptedLeaves(s: State, item: PageItem)
    requires Solid(s) && IsPlaceholder(item.nonce) && !IsPlaceholder(item.event.head.id)
    requires item.event.Encrypted? && item.event.head.redactedBecause == None
    ensures LeavesEntry(s, item, ActAll(s, PageProgram(s.room, item)))
    ensures LeavesNonce(item, ActAll(s, PageProgram(s.room, item)))
  {
    var h := item.event.head;
    var p := PlaceholderMessage(item.nonce, h.ts, h.sender, "");
    var s1 := SetState(s, p);
    ActCons(s, DoSet(p), AfterPlaceholder(s.room, item, item.event.outcome));
    SetTables(s, p);
    ActItems(s, DoSet(p));
    match item.event.outcome
    case Undecryptable => UndecryptableAfter(s1, item);
    case NotAMessage =>
    case RedactedInside(reason) => SetWithEmbedsLeaves(s1, RedactedMessage(h, reason), item.embeds);
    case Decrypted(content) => SetWithEmbedsLeaves(s1, EventMessage(h, content, item.nonce), item.embeds);
  }

  /** Whatever the schedule, a page with fresh nonces leaves the decrypting placeholder of exactly
      those encrypted events that decrypt to something other than a message, or to a message that is
      redacted inside; every event that ends as a message has that message as its one entry. */
  lemma PageSettles(s: State, items: seq<PageItem>, sched: seq<nat>, clock: Clock, i: nat)
    requires Inv(s, clock) && PageFits(items, clock) && Distinct(items)
    requires forall j :: 0 <= j < |items| ==> Fresh(s, items[j].nonce)
    requires Complete(Threads(s.room, items), sched) && i < |items|
    ensures var f := Interleave(s, Threads(s.room, items), sched);
            var h := items[i].event.head;
      && LeavesEntry(s, items[i], f) && LeavesNonce(items[i], f)
      && ((exists x :: x in f.tree && x.id == items[i].nonce) <==> LeavesPlaceholder(items[i].event))
      && (FinalMessage(s.room, items[i]).Some? ==>
            forall x :: x in f.tree && x.id == h.id ==> x == FinalMessage(s.room, items[i]).value)
  {
    var threads, f := Threads(s.room, items), Interleave(s, Threads(s.room, items), sched);
    PageApart(s.room, items);
    InterleaveResult(s, threads, Feet(items), sched);
    var own := ActAll(s, threads[i]);
    ItemLeaves(s, items[i]);
    assert AgreeOn(f, own, Foot(items[i]));
    assert AgreeAt(f, own, items[i].nonce) && AgreeAt(f, own, items[i].event.head.id);
    SameEntries(f, own, items[i].nonce);
    PageIndependent(s, items, sched, clock);
    if items[i].nonce in f.index {
      assert f.index[items[i].nonce] in f.tree;
    }
  }

  lemma SameEntries(s: State, s': State, k: string)
    requires AgreeAt(s, s', k)
    ensures k in s.index <==> k in s'.index
    ensures k in s.nonces <==> k in s'.nonces
  {
  }

  /** The empty timeline and one encrypted event that does not decrypt lead to the stray embed of
      `StrayEmbedSticks`: the run ends with an entry that no retry ever makes readable. */
  lemma StrayEmbedReached(h: EventHead, nonce: string, content: string, embeds: seq<string>, clock: Clock)
    requires HeadFits(h, clock) && h.redactedBecause == None && IsPlaceholder(nonce) && h.ts == clock(nonce)
    ensures var first := Page(PageItem(Encrypted(h, Undecryptable), nonce, []));
            var s := Do(Empty("!r"), first);
      && Fits(first, clock) && h.id in s.index
      && var m := s.index[h.id];
         var f := Do(Do(s, Retry(m, Decrypted(content))), Embeds(m.(embeds := embeds)));
      && Fits(Embeds(m.(embeds := embeds)), clock)
      && h.id in f.index && f.index[h.id].undecryptable
      && forall outcome :: Do(f, Retry(f.index[h.id], outcome)) == f
  {
    var item := PageItem(Encrypted(h, Undecryptable), nonce, []);
    var s := Do(Empty("!r"), Page(item));
    ItemLeaves(Empty("!r"), item);
    assert At(s.index, h.id).Some?;
    StepKeepsInv(Empty("!r"), Page(item), clock);
    StepKeepsRawIff(Empty("!r"), Page(item), clock);
    StrayEmbedSticks(s, h.id, content, embeds, clock);
  }

  /** From the empty timeline, an encrypted event that does not decrypt at first: a retry of its entry
      panics if the event then decrypts to a message that is redacted inside. That decryption can find a
      redaction which the stored event lacks is up to the library. */
  lemma RetryPanicReached(h: EventHead, nonce: string, reason: string, clock: Clock)
    requires HeadFits(h, clock) && h.redactedBecause == None && IsPlaceholder(nonce) && h.ts == clock(nonce)
    ensures var first := Page(PageItem(Encrypted(h, Undecryptable), nonce, []));
            var s := Do(Empty("!r"), first);
      && Fits(first, clock) && h.id in s.index
      && RetryEnds(s, s.index[h.id], RedactedInside(reason)).Panics?
  {
    var item := PageItem(Encrypted(h, Undecryptable), nonce, []);
    var s := Do(Empty("!r"), Page(item));
    ItemLeaves(Empty("!r"), item);
    assert At(s.index, h.id).Some?;
    StepKeepsInv(Empty("!r"), Page(item), clock);
    StepKeepsRawIff(Empty("!r"), Page(item), clock);
    RetryPanicsIff(s, s.index[h.id], RedactedInside(reason), clock);
  }
}
