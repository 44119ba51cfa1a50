/** What loading the history leaves in the timeline: the pages of all calls together. */
module History {
  import opened Wrappers
  import opened Messages
  import opened SortedTree
  import opened Timeline
  import opened Runs
  import opened Schedule
  import opened Pages
  import opened Lifecycle
  import opened Pagination

  /** What an event leaves in the tree: the message it ends as, and the decrypting placeholder if nothing
      replaces that. */
  predicate LeftBy(room: string, item: PageItem, x: Message) {
    var h := item.event.head;
    || FinalMessage(room, item) == Some(x)
    || (LeavesPlaceholder(item.event) && x == PlaceholderMessage(item.nonce, h.ts, h.sender, "").(roomID := room))
  }

  /** Nothing of the event is in the tables yet. */
  predicate IsNew(s: State, item: PageItem) {
    item.event.head.id !in s.index && item.nonce !in s.index && item.nonce !in s.nonces
  }

  predicate AllNew(s: State, items: seq<PageItem>) {
    forall i :: 0 <= i < |items| ==> IsNew(s, items[i])
  }

  // ---------------------------------------------------------------- one event

  lemma PlaceholderStays(s: State, item: PageItem, clock: Clock)
    requires Inv(s, clock) && Fits(Page(item), clock) && LeavesPlaceholder(item.event)
    ensures var h := item.event.head;
            At(Do(s, Page(item)).index, item.nonce) ==
            Some(PlaceholderMessage(item.nonce, h.ts, h.sender, "").(roomID := s.room))
  {
    var h := item.event.head;
    var p := PlaceholderMessage(item.nonce, h.ts, h.sender, "");
    var rest := AfterPlaceholder(s.room, item, item.event.outcome);
    ActCons(s, DoSet(p), rest);
    SetTables(s, p);
    ActItems(s, DoSet(p));
    assert Within(rest, {h.id});
    ProgramFrame(SetState(s, p), rest, {h.id}, item.nonce);
    assert At(SetState(s, p).index, item.nonce) == Some(Stamped(s, p));
  }

  /** The entry that stands under an identifier of the event, if it was new. */
  lemma EntryOfItem(s: State, item: PageItem, clock: Clock, x: Message)
    requires Inv(s, clock) && Fits(Page(item), clock) && IsNew(s, item) && x.id in Foot(item)
    ensures At(Do(s, Page(item)).index, x.id) == Some(x) <==> LeftBy(s.room, item, x)
  {
    var h := item.event.head;
    ItemLeaves(s, item);
    assert h.id != item.nonce;
    if x.id == item.nonce {
      if LeavesPlaceholder(item.event) {
        PlaceholderStays(s, item, clock);
      }
    }
  }

  lemma TreeIsIndex(s: State, x: Message)
    requires Agree(s)
    ensures x in s.tree <==> At(s.index, x.id) == Some(x)
  {
  }

  lemma ItemAdds(s: State, item: PageItem, clock: Clock, x: Message)
    requires Inv(s, clock) && Fits(Page(item), clock) && IsNew(s, item)
    ensures x in Do(s, Page(item)).tree <==> x in s.tree || LeftBy(s.room, item, x)
  {
    if x.id in Foot(item) {
      StepKeepsInv(s, Page(item), clock);
      TreeIsIndex(s, x);
      TreeIsIndex(Do(s, Page(item)), x);
      EntryOfItem(s, item, clock, x);
    } else {
      NotLeft(s.room, item, x);
      StepFrame(s, Page(item), clock, x.id);
    }
  }

  lemma NotLeft(room: string, item: PageItem, x: Message)
    requires x.id !in Foot(item)
    ensures !LeftBy(room, item, x)
  {
  }

  lemma StaysNew(s: State, item: PageItem, other: PageItem, clock: Clock)
    requires Inv(s, clock) && Fits(Page(item), clock) && IsNew(s, other) && Foot(item) !! Foot(other)
    ensures IsNew(Do(s, Page(item)), other)
  {
    forall k | k in Foot(other) ensures AgreeAt(s, Do(s, Page(item)), k) {
      StepFrame(s, Page(item), clock, k);
    }
    SameEntries(s, Do(s, Page(item)), other.event.head.id);
    SameEntries(s, Do(s, Page(item)), other.nonce);
  }

  // ---------------------------------------------------------------- all events

  lemma FirstItem(s: State, items: seq<PageItem>, clock: Clock)
    requires Inv(s, clock) && items != [] && PageFits(items, clock) && Distinct(items) && AllNew(s, items)
    ensures var s1 := Do(s, Page(items[0]));
      && Fits(Page(items[0]), clock) && Inv(s1, clock) && s1.room == s.room
      && PageFits(items[1..], clock) && Distinct(items[1..]) && AllNew(s1, items[1..])
      && DoAll(s, Steps(items)) == DoAll(s1, Steps(items[1..]))
  {
    var s1 := Do(s, Page(items[0]));
    StepKeepsInv(s, Page(items[0]), clock);
    RoomStays(s, PageProgram(s.room, items[0]));
    forall i | 0 <= i < |items[1..]| ensures IsNew(s1, items[1..][i]) {
      StaysNew(s, items[0], items[i + 1], clock);
    }
    assert Steps(items)[1..] == Steps(items[1..]);
  }

  ghost predicate LeftByOne(room: string, items: seq<PageItem>, x: Message) {
    exists i :: 0 <= i < |items| && LeftBy(room, items[i], x)
  }

  lemma LeftByFirst(room: string, items: seq<PageItem>, x: Message)
    requires items != []
    ensures LeftByOne(room, items, x) <==> LeftBy(room, items[0], x) || LeftByOne(room, items[1..], x)
  {
    if LeftByOne(room, items[1..], x) {
      var i :| 0 <= i < |items[1..]| && LeftBy(room, items[1..][i], x);
      assert LeftBy(room, items[i + 1], x);
    }
    if i :| 1 <= i < |items| && LeftBy(room, items[i], x) {
      assert items[1..][i - 1] == items[i];
    }
  }

  lemma {:induction false} ItemsAdd(s: State, items: seq<PageItem>, clock: Clock, x: Message)
    requires Inv(s, clock) && PageFits(items, clock) && Distinct(items) && AllNew(s, items)
    ensures x in DoAll(s, Steps(items)).tree <==> x in s.tree || LeftByOne(s.room, items, x)
    decreases |items|
  {
    if items != [] {
      FirstItem(s, items, clock);
      ItemAdds(s, items[0], clock, x);
      ItemsAdd(Do(s, Page(items[0])), items[1..], clock, x);
      LeftByFirst(s.room, items, x);
    }
  }

  // ---------------------------------------------------------------- all calls

  /** A complete schedule for the page of every call. */
  predicate Scheduled(room: string, p: Pager, calls: seq<Call<PageItem>>, scheds: seq<seq<nat>>)
    decreases |calls|
  {
    && |scheds| == |calls|
    && (calls == []
        || (Complete(Threads(room, Added(p, calls[0].response)), scheds[0])
            && Scheduled(room, Load(p, calls[0].response), calls[1..], scheds[1..])))
  }

  /** The timeline after calls of `LoadNextMessages`, one after the other, the goroutines of each in any order. */
  function AfterCalls(s: State, room: string, p: Pager, calls: seq<Call<PageItem>>, scheds: seq<seq<nat>>): State
    requires Scheduled(room, p, calls, scheds)
    decreases |calls|
  {
    if calls == [] then s
    else
      var s1 := Interleave(s, Threads(room, Added(p, calls[0].response)), scheds[0]);
      AfterCalls(s1, room, Load(p, calls[0].response), calls[1..], scheds[1..])
  }

  lemma {:induction false} DoAllAppend(s: State, a: seq<Step>, b: seq<Step>)
    ensures DoAll(s, a + b) == DoAll(DoAll(s, a), b)
    decreases |a|
  {
    if a == [] {
      assert a + b == b;
    } else {
      assert (a + b)[1..] == a[1..] + b;
      DoAllAppend(Do(s, a[0]), a[1..], b);
    }
  }

  lemma SplitItems(page: seq<PageItem>, rest: seq<PageItem>, clock: Clock)
    requires PageFits(page + rest, clock) && Distinct(page + rest)
    ensures PageFits(page, clock) && Distinct(page) && PageFits(rest, clock) && Distinct(rest)
  {
    var all := page + rest;
    assert forall i :: 0 <= i < |page| ==> all[i] == page[i];
    assert forall i :: 0 <= i < |rest| ==> all[|page| + i] == rest[i];
  }

  lemma SplitSteps(page: seq<PageItem>, rest: seq<PageItem>)
    ensures Steps(page + rest) == Steps(page) + Steps(rest)
  {
  }

  lemma {:induction false} RoomStaysAll(s: State, items: seq<PageItem>, clock: Clock)
    requires Inv(s, clock) && PageFits(items, clock)
    ensures DoAll(s, Steps(items)).room == s.room && Inv(DoAll(s, Steps(items)), clock)
    decreases |items|
  {
    if items != [] {
      RoomStays(s, PageProgram(s.room, items[0]));
      StepKeepsInv(s, Page(items[0]), clock);
      RoomStaysAll(Do(s, Page(items[0])), items[1..], clock);
      assert Steps(items)[1..] == Steps(items[1..]);
    }
  }

  lemma {:induction false} CallsAreSteps(s: State, p: Pager, calls: seq<Call<PageItem>>, scheds: seq<seq<nat>>, clock: Clock)
    requires Inv(s, clock) && Scheduled(s.room, p, calls, scheds)
    requires PageFits(Loaded(p, calls), clock) && Distinct(Loaded(p, calls))
    ensures AfterCalls(s, s.room, p, calls, scheds) == DoAll(s, Steps(Loaded(p, calls)))
    decreases |calls|
  {
    if calls != [] {
      var page, p1 := Added(p, calls[0].response), Load(p, calls[0].response);
      var rest := Loaded(p1, calls[1..]);
      SplitItems(page, rest, clock);
      SplitSteps(page, rest);
      PageIndependent(s, page, scheds[0], clock);
      RoomStaysAll(s, page, clock);
      CallsAreSteps(DoAll(s, Steps(page)), p1, calls[1..], scheds[1..], clock);
      DoAllAppend(s, Steps(page), Steps(rest));
    }
  }

  /** Loading adds to the tree exactly what the loaded events leave, whatever the failures of the calls and
      the schedules of their goroutines, if none of the events was there before. */
  lemma CallsAdd(s: State, p: Pager, calls: seq<Call<PageItem>>, scheds: seq<seq<nat>>, clock: Clock)
    requires Inv(s, clock) && Scheduled(s.room, p, calls, scheds)
    requires PageFits(Loaded(p, calls), clock) && Distinct(Loaded(p, calls)) && AllNew(s, Loaded(p, calls))
    ensures forall x :: x in AfterCalls(s, s.room, p, calls, scheds).tree <==>
                        x in s.tree || LeftByOne(s.room, Loaded(p, calls), x)
  {
    CallsAreSteps(s, p, calls, scheds, clock);
    forall x ensures x in DoAll(s, Steps(Loaded(p, calls))).tree <==> x in s.tree || LeftByOne(s.room, Loaded(p, calls), x) {
      ItemsAdd(s, Loaded(p, calls), clock, x);
    }
  }

  lemma ReversedLeaves(room: string, items: seq<PageItem>, x: Message)
    ensures LeftByOne(room, Reversed(items), x) <==> LeftByOne(room, items, x)
  {
    if LeftByOne(room, items, x) {
      var i :| 0 <= i < |items| && LeftBy(room, items[i], x);
      assert Reversed(items)[|items| - 1 - i] == items[i];
    }
  }

  /** The whole of it: a server whose history may grow, any calls with any failures, any schedules. From the
      empty timeline the tree ends up holding exactly what the events of a gap-free run of the history
      leave, from some position up to the newest event of the first successful fetch. Once the end flag is
      up the run starts at the beginning, unless the server repeated a token on an empty page. */
  lemma HistoryIsShown(room: string, calls: seq<Call<PageItem>>, scheds: seq<seq<nat>>, pos: Positions, clock: Clock)
    returns (q: nat)
    requires Served(START, calls, pos) && Growing(calls) && Scheduled(room, START, calls, scheds)
    requires PageFits(Loaded(START, calls), clock) && Distinct(Loaded(START, calls))
    ensures q <= |Top(calls)| && (LoadAll(START, calls) == START || StandsAt(LoadAll(START, calls), q, pos))
    ensures LoadAll(START, calls).noMoreHistory ==> q == 0 || exists i :: RepeatsToken(calls, i)
    ensures forall x :: x in AfterCalls(Empty(room), room, START, calls, scheds).tree <==>
                        LeftByOne(room, Top(calls)[q..], x)
  {
    q := LoadedIsSuffix(calls, pos);
    CallsAdd(Empty(room), START, calls, scheds, clock);
    forall x ensures LeftByOne(room, Loaded(START, calls), x) <==> LeftByOne(room, Top(calls)[q..], x) {
      ReversedLeaves(room, Top(calls)[q..], x);
    }
  }
}
