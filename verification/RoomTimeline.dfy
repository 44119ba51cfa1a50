/** The message tree of one room as the client keeps it: an object whose methods update its tables
    in place, each proved against the state functions of `Timeline` and `Runs`. */
module RoomTimeline {
  import opened Wrappers
  import opened Messages
  import opened SortedTree
  import opened Timeline
  import opened Runs
  import opened Schedule
  import opened Pages
  import opened Retries
  import opened Render
  import opened Pagination
  import opened Sync

  // ---------------------------------------------------------------- sequences of sections

  lemma {:induction false} RunMore(s: State, p: seq<Action>, a: Action)
    ensures ActAll(s, p + [a]) == Act(ActAll(s, p), a)
    ensures EmitAll(s, p + [a]) == EmitAll(s, p) + Emit(ActAll(s, p), a)
    decreases |p|
  {
    if p == [] {
      assert [] + [a] == [a] && [a][1..] == [];
    } else {
      assert (p + [a])[1..] == p[1..] + [a];
      RunMore(Act(s, p[0]), p[1..], a);
    }
  }

  lemma OneSection(s: State, a: Action)
    ensures ActAll(s, [a]) == Act(s, a) && EmitAll(s, [a]) == Emit(s, a)
  {
  }

  lemma FirstSection(s: State, a: Action, p: seq<Action>)
    ensures ActAll(s, [a] + p) == ActAll(Act(s, a), p) && EmitAll(s, [a] + p) == Emit(s, a) + EmitAll(Act(s, a), p)
  {
  }

  lemma Assoc(a: seq<TreeEvent>, b: seq<TreeEvent>, c: seq<TreeEvent>)
    ensures (a + b) + c == a + (b + c)
  {
  }

  /** What was sent, then a section's events, then those of the rest. */
  lemma HeardFirst(was: seq<TreeEvent>, s: State, a: Action, p: seq<Action>, listening: bool)
    ensures ActAll(s, [a] + p) == ActAll(Act(s, a), p)
    ensures was + (if listening then Emit(s, a) else []) + (if listening then EmitAll(Act(s, a), p) else [])
         == was + if listening then EmitAll(s, [a] + p) else []
  {
    FirstSection(s, a, p);
    Assoc(was, Emit(s, a), EmitAll(Act(s, a), p));
  }

  lemma ThreeSections(s: State, a: Action, b: Action, c: Action)
    ensures var s1, s2 := Act(s, a), Act(Act(s, a), b);
            ActAll(s, [a, b, c]) == Act(s2, c) && EmitAll(s, [a, b, c]) == Emit(s, a) + Emit(s1, b) + Emit(s2, c)
  {
    OneSection(s, a);
    RunMore(s, [a], b);
    RunMore(s, [a, b], c);
    assert [a] + [b] == [a, b] && [a, b] + [c] == [a, b, c];
  }

  lemma {:induction false} SnapshotMore(t: Tree, i: nat)
    requires i < |t|
    ensures Snapshot(t[..i + 1]) == Snapshot(t[..i]) + if t[i].undecryptable then [t[i]] else []
    decreases i
  {
    if i > 0 {
      assert t[..i + 1][1..] == t[1..][..i] && t[..i][1..] == t[1..][..i - 1];
      SnapshotMore(t[1..], i - 1);
    } else {
      assert t[..1][1..] == [] && t[..0] == [];
    }
  }

  /** The next section of a schedule, and the rest of it. */
  lemma NextSection(told: seq<TreeEvent>, s: State, threads: seq<seq<Action>>, sched: seq<nat>)
    requires Complete(threads, sched) && sched != []
    ensures var i, a := sched[0], threads[sched[0]][0];
            var rest := threads[i := threads[i][1..]];
      && Interleave(s, threads, sched) == Interleave(Act(s, a), rest, sched[1..])
      && told + EmitAll(s, Order(threads, sched)) == (told + Emit(s, a)) + EmitAll(Act(s, a), Order(rest, sched[1..]))
  {
    var i, a := sched[0], threads[sched[0]][0];
    var rest := Order(threads[i := threads[i][1..]], sched[1..]);
    FirstSection(s, a, rest);
    Assoc(told, Emit(s, a), EmitAll(Act(s, a), rest));
  }

  /** The tree looks at keys only. */
  lemma {:induction false} SameSeek(t: Tree, a: Message, b: Message)
    requires SameKey(a, b)
    ensures Seek(t, a) == Seek(t, b) && Has(t, a) == Has(t, b)
  {
    if t != [] {
      SameSeek(t[1..], a, b);
    }
  }

  /** The request that puts a message on the server; its echo carries the transaction. */
  datatype SendRequest = SendRequest(txn: string, body: string, encrypted: bool)

  class MessageTree {
    const roomID: string
    const isEncrypted: bool
    var tree: Tree
    var messagesMap: map<string, Message>
    var nonces: map<string, Message>
    var pendingRedactions: map<string, string>   // nothing ever fills it
    var rawEncryptedEvents: map<string, EventHead>
    var listening: bool
    var sent: seq<TreeEvent>            // the listener channel, in order
    var prevBatch: string
    var noMoreHistory: bool

    constructor (roomID: string, isEncrypted: bool)
      ensures Model() == Empty(roomID) && Pager() == START && !listening && sent == []
      ensures this.isEncrypted == isEncrypted
    {
      this.roomID, this.isEncrypted := roomID, isEncrypted;
      tree, messagesMap, nonces := [], map[], map[];
      pendingRedactions, rawEncryptedEvents := map[], map[];
      listening, sent := false, [];
      prevBatch, noMoreHistory := "", false;
    }

    function Model(): State
      reads this
    {
      State(roomID, tree, messagesMap, nonces, rawEncryptedEvents, pendingRedactions)
    }

    ghost function Pager(): Pager
      reads this
    {
      Pagination.Pager(prevBatch, noMoreHistory)
    }

    /** What listeners hear of a run of sections from state `s`. */
    ghost function Told(s: State, p: seq<Action>): seq<TreeEvent>
      reads this`listening
    {
      if listening then EmitAll(s, p) else []
    }

    method SendEventToListeners(e: TreeEvent)
      modifies this`sent
      ensures sent == old(sent) + if listening then [e] else []
    {
      if listening {
        sent := sent + [e];
      }
    }

    /** An iterator over the tree is a position in it. */
    method GetNeighbors(m: Message) returns (n: Neighbors)
      ensures n == NeighborsOf(tree, m)
    {
      n := Neighbors(None, None);
      var at := Seek(tree, m);
      if at == |tree| {
        return;
      }
      if at > 0 {
        at := at - 1;
        n := n.(prev := Some(tree[at]));
        at := at + 1;
      }
      at := Seek(tree, m);
      if at + 1 < |tree| {
        at := at + 1;
        n := n.(next := Some(tree[at]));
      }
    }

    /** The part of `Set` that changes the tables. */
    method Store(msg: Message) returns (m: Message, replaced: bool, replacedPending: bool, replacedNonce: string)
      modifies this`tree, this`messagesMap, this`nonces, this`pendingRedactions
      ensures Model() == SetState(old(Model()), msg)
      ensures m == Settled(old(Model()), msg)
      ensures replaced == Has(Cleared(old(Model()), msg).tree, Stamped(old(Model()), msg))
      ensures replacedPending == Replaces(old(Model()), msg)
      ensures replacedNonce == if replacedPending then old(nonces)[msg.nonce].id else ""
    {
      m := msg.(roomID := roomID);
      replacedPending, replacedNonce := false, "";
      var isPending := false;
      if m.nonce != "" {
        if m.nonce in nonces {
          var existing := nonces[m.nonce];
          tree := Drop(tree, existing);
          messagesMap := messagesMap - {existing.id};
          replacedNonce, replacedPending := existing.id, true;
          nonces := nonces - {m.nonce};
        }
        m := m.(nonce := "");
      } else if IsPlaceholder(m.id) {
        isPending := true;
        nonces := nonces[m.id := m];
      }
      assert State(roomID, tree, messagesMap, nonces, rawEncryptedEvents, pendingRedactions) == Cleared(old(Model()), msg);
      replaced := Has(tree, m);
      tree := Put(tree, m);
      messagesMap := messagesMap[m.id := m];
      if m.id in pendingRedactions {
        m := RedactedFrom(m, pendingRedactions[m.id]);
        pendingRedactions := pendingRedactions - {m.id};
        tree := Put(tree, m);
        messagesMap := messagesMap[m.id := m];
        if isPending {
          nonces := nonces[m.id := m];
        }
      }
    }

    method Set(msg: Message) returns (m: Message, replaced: bool)
      modifies this`tree, this`messagesMap, this`nonces, this`pendingRedactions, this`sent
      ensures Model() == Act(old(Model()), DoSet(msg))
      ensures sent == old(sent) + if listening then Emit(old(Model()), DoSet(msg)) else []
      ensures m == Settled(old(Model()), msg)
      ensures replaced == Has(Cleared(old(Model()), msg).tree, Stamped(old(Model()), msg))
    {
      var replacedPending, replacedNonce;
      m, replaced, replacedPending, replacedNonce := Store(msg);
      if listening {
        var neighbors := GetNeighbors(m);
        var e := if !replaced && !replacedPending then AddEvent(m, neighbors) else UpdateEvent(m, replacedNonce, neighbors);
        SameSeek(old(tree), m, Stamped(old(Model()), msg));
        SendEventToListeners(e);
      }
    }

    method DeleteMessage(m: Message)
      modifies this`tree, this`sent
      ensures Model() == Act(old(Model()), DropTree(m))
      ensures sent == old(sent) + if listening then Emit(old(Model()), DropTree(m)) else []
    {
      tree := Drop(tree, m);
      SendEventToListeners(RemoveEvent(m));
    }

    /** The locked part of `fetchAndApplyEmbeds`, and its announcement. */
    method ApplyEmbeds(m: Message)
      modifies this`tree, this`messagesMap, this`sent
      ensures Model() == Act(old(Model()), WriteBack(m))
      ensures sent == old(sent) + if listening then Emit(old(Model()), WriteBack(m)) else []
    {
      tree := Put(tree, m);
      messagesMap := messagesMap[m.id := m];
      SendEventToListeners(UpdateEvent(m, "", Neighbors(None, None)));
    }

    /** `fetched` is what the embed cache answers for the message. */
    method FetchAndApplyEmbeds(msg: Message, fetched: seq<string>)
      modifies this`tree, this`messagesMap, this`sent
      ensures var p := if fetched == [] then [] else [WriteBack(msg.(embeds := fetched))];
              Model() == ActAll(old(Model()), p) && sent == old(sent) + Told(old(Model()), p)
    {
      if fetched == [] {
        return;
      }
      ApplyEmbeds(msg.(embeds := fetched));
      OneSection(old(Model()), WriteBack(msg.(embeds := fetched)));
    }

    /** One event of the sync loop. */
    method HandleSync(e: SyncEvent)
      modifies this`tree, this`messagesMap, this`nonces, this`pendingRedactions, this`sent
      ensures var p := SyncProgram(old(Model()), e);
              Model() == ActAll(old(Model()), p) && sent == old(sent) + Told(old(Model()), p)
    {
      match e
      case SyncMessage(h, Some(content), txn) =>
        var m := EventMessage(h, content, txn);
        var _, _ := Set(m);
        OneSection(old(Model()), DoSet(m));
      case SyncRedaction(id, reason) => Redact(id, reason);
      case _ =>
    }

    method Redact(id: string, reason: string)
      modifies this`tree, this`messagesMap, this`nonces, this`pendingRedactions, this`sent
      ensures var p := RedactionProgram(old(Model()), id, reason);
              Model() == ActAll(old(Model()), p) && sent == old(sent) + Told(old(Model()), p)
    {
      if id !in messagesMap {
        return;
      }
      var m := messagesMap[id];
      messagesMap := messagesMap - {id};
      DeleteMessage(m);
      var r := RedactedFrom(m, reason);
      var _, _ := Set(r);
      ThreeSections(old(Model()), TakeIndex(id), DropTree(m), DoSet(r));
    }

    /** `outcome` is what decrypting the stored event yields. */
    method RetryDecryptMessage(msg: Message, outcome: Decryption) returns (end: RetryEnd)
      modifies this`tree, this`messagesMap, this`nonces, this`rawEncryptedEvents, this`pendingRedactions, this`sent
      ensures end == RetryEnds(old(Model()), msg, outcome)
      ensures Model() == Do(old(Model()), Retry(msg, outcome))
      ensures sent == old(sent) + Told(old(Model()), RetryProgram(old(Model()), msg, outcome))
    {
      if !msg.undecryptable || msg.id !in rawEncryptedEvents {
        return Retried(false);
      }
      var enc := rawEncryptedEvents[msg.id];
      match outcome
      case Undecryptable => return Retried(false);
      case NotAMessage => return Retried(false);
      case RedactedInside(_) =>
        if enc.redactedBecause == None {
          return Panics;
        }
        Retrieve(msg.id, RedactedMessage(enc, enc.redactedBecause.value));
        return Retried(true);
      case Decrypted(content) =>
        Retrieve(msg.id, EventMessage(enc, content, msg.id));
        return Retried(true);
    }

    /** Forget the stored event and set the message it became. */
    method Retrieve(id: string, m: Message)
      modifies this`tree, this`messagesMap, this`nonces, this`rawEncryptedEvents, this`pendingRedactions, this`sent
      ensures Model() == ActAll(old(Model()), [DropRaw(id), DoSet(m)])
      ensures sent == old(sent) + Told(old(Model()), [DropRaw(id), DoSet(m)])
    {
      ghost var s := Model();
      rawEncryptedEvents := rawEncryptedEvents - {id};
      var _, _ := Set(m);
      FirstSection(s, DropRaw(id), [DoSet(m)]);
      OneSection(Act(s, DropRaw(id)), DoSet(m));
      assert [DropRaw(id)] + [DoSet(m)] == [DropRaw(id), DoSet(m)];
    }

    // -------------------------------------------------------------- goroutines

    /** One section of one goroutine. */
    method Perform(a: Action)
      modifies this`tree, this`messagesMap, this`nonces, this`rawEncryptedEvents, this`pendingRedactions, this`sent
      ensures Model() == Act(old(Model()), a)
      ensures sent == old(sent) + if listening then Emit(old(Model()), a) else []
    {
      match a
      case DoSet(m) => var _, _ := Set(m);
      case WriteBack(m) => ApplyEmbeds(m);
      case DropTree(m) => DeleteMessage(m);
      case TakeIndex(id) => messagesMap := messagesMap - {id};
      case StoreRaw(e) => rawEncryptedEvents := rawEncryptedEvents[e.id := e];
      case DropRaw(id) => rawEncryptedEvents := rawEncryptedEvents - {id};
      case StoreNonce(m) => nonces := nonces[m.id := m];
    }

    /** Start the goroutines and wait for them: `sched` says whose section runs next. */
    method RunGoroutines(threads: seq<seq<Action>>, sched: seq<nat>)
      requires Complete(threads, sched)
      modifies this`tree, this`messagesMap, this`nonces, this`rawEncryptedEvents, this`pendingRedactions, this`sent
      ensures Model() == Interleave(old(Model()), threads, sched)
      ensures sent == old(sent) + Told(old(Model()), Order(threads, sched))
    {
      var rest, todo := threads, sched;
      ghost var f, heard := Interleave(Model(), threads, sched), EmitAll(Model(), Order(threads, sched));
      ghost var told: seq<TreeEvent> := [];
      while todo != []
        invariant Complete(rest, todo)
        invariant Interleave(Model(), rest, todo) == f
        invariant told + EmitAll(Model(), Order(rest, todo)) == heard
        invariant sent == old(sent) + if listening then told else []
        decreases |todo|
      {
        var i := todo[0];
        var a := rest[i][0];
        NextSection(told, Model(), rest, todo);
        told := told + Emit(Model(), a);
        Perform(a);
        rest, todo := rest[i := rest[i][1..]], todo[1..];
      }
    }

    /** `outcomes` says what each stored event decrypts to. A goroutine that panics ends the process. */
    method RetryDecryptAll(outcomes: string -> Decryption, sched: seq<nat>) returns (crashed: bool)
      requires Complete(RetryThreads(Model(), Snapshot(tree), outcomes), sched)
      modifies this`tree, this`messagesMap, this`nonces, this`rawEncryptedEvents, this`pendingRedactions, this`sent
      ensures crashed == Round(old(Model()), outcomes, sched).Crashed?
      ensures !crashed ==> Model() == Round(old(Model()), outcomes, sched).s
      ensures !crashed ==>
        sent == old(sent) + Told(old(Model()), Order(RetryThreads(old(Model()), Snapshot(old(tree)), outcomes), sched))
    {
      var undecryptable := ScanUndecryptable();
      var threads: seq<seq<Action>> := [];
      for i := 0 to |undecryptable|
        invariant unchanged(this)
        invariant threads == RetryThreads(Model(), undecryptable, outcomes)[..i]
        invariant forall j :: 0 <= j < i ==> !RetryEnds(Model(), undecryptable[j], outcomes(undecryptable[j].id)).Panics?
      {
        var m := undecryptable[i];
        if RetryEnds(Model(), m, outcomes(m.id)).Panics? {
          return true;
        }
        threads := threads + [RetryProgram(Model(), m, outcomes(m.id))];
      }
      assert threads == RetryThreads(Model(), undecryptable, outcomes);
      RunGoroutines(threads, sched);
      crashed := false;
    }

    method ScanUndecryptable() returns (undecryptable: seq<Message>)
      ensures undecryptable == Snapshot(tree)
    {
      undecryptable := [];
      for i := 0 to |tree|
        invariant undecryptable == Snapshot(tree[..i])
      {
        SnapshotMore(tree, i);
        if tree[i].undecryptable {
          undecryptable := undecryptable + [tree[i]];
        }
      }
      assert tree[..|tree|] == tree;
    }

    method SetAndEmbed(msg: Message, embeds: seq<string>)
      requires pendingRedactions == map[]
      modifies this`tree, this`messagesMap, this`nonces, this`pendingRedactions, this`sent
      ensures Model() == ActAll(old(Model()), SetWithEmbeds(roomID, msg, embeds))
      ensures sent == old(sent) + Told(old(Model()), SetWithEmbeds(roomID, msg, embeds))
      ensures pendingRedactions == map[]
    {
      ghost var s := Model();
      var m, _ := Set(msg);
      FetchAndApplyEmbeds(m, embeds);
      OneSection(s, DoSet(msg));
      if embeds != [] {
        RunMore(s, [DoSet(msg)], WriteBack(m.(embeds := embeds)));
        OneSection(SetState(s, msg), WriteBack(m.(embeds := embeds)));
      } else {
        assert SetWithEmbeds(roomID, msg, embeds) == [DoSet(msg)];
      }
    }

    /** The local placeholder and the request. There is no nonce when the generator of random bytes
        fails; `encrypts` says whether encrypting the content works in an encrypted room. */
    method SendMessage(nonce: Option<string>, ts: int, author: string, body: string, encrypts: bool)
      returns (request: Option<SendRequest>)
      modifies this`tree, this`messagesMap, this`nonces, this`pendingRedactions, this`sent
      ensures nonce == None ==> unchanged(this)
      ensures nonce.Some? ==>
        var step := LocalSend(nonce.value, ts, author, body);
        Model() == Do(old(Model()), step) && sent == old(sent) + Told(old(Model()), Program(old(Model()), step))
      ensures request ==
        if nonce == None || (isEncrypted && !encrypts) then None else Some(SendRequest(nonce.value, body, isEncrypted))
    {
      if nonce == None {
        return None;
      }
      var m := PlaceholderMessage(nonce.value, ts, author, body);
      var _, _ := Set(m);
      OneSection(old(Model()), DoSet(m));
      if isEncrypted {
        if !encrypts {
          return None;
        }
        return Some(SendRequest(nonce.value, body, true));
      }
      return Some(SendRequest(nonce.value, body, false));
    }

    /** Keep the event and its message for a retry. */
    method KeepForRetry(h: EventHead, m: Message)
      requires h.id == m.id
      modifies this`nonces, this`rawEncryptedEvents
      ensures Model() == Act(Act(old(Model()), StoreRaw(h)), StoreNonce(m))
    {
      rawEncryptedEvents := rawEncryptedEvents[m.id := h];
      nonces := nonces[m.id := m];
    }

    method SetUndecryptable(h: EventHead, m: Message, embeds: seq<string>)
      requires pendingRedactions == map[] && h.id == m.id
      modifies this`tree, this`messagesMap, this`nonces, this`rawEncryptedEvents, this`pendingRedactions, this`sent
      ensures var p := [StoreRaw(h), StoreNonce(m)] + SetWithEmbeds(roomID, m, embeds);
              Model() == ActAll(old(Model()), p) && sent == old(sent) + Told(old(Model()), p)
      ensures pendingRedactions == map[]
    {
      KeepForRetry(h, m);
      QuietThen(old(Model()), StoreRaw(h), StoreNonce(m), SetWithEmbeds(roomID, m, embeds));
      SetAndEmbed(m, embeds);
    }

    /** The rest of an encrypted event's goroutine, once its placeholder is set. */
    method SettleEncrypted(item: PageItem, outcome: Decryption)
      requires pendingRedactions == map[]
      modifies this`tree, this`messagesMap, this`nonces, this`rawEncryptedEvents, this`pendingRedactions, this`sent
      ensures Model() == ActAll(old(Model()), AfterPlaceholder(roomID, item, outcome))
      ensures sent == old(sent) + Told(old(Model()), AfterPlaceholder(roomID, item, outcome))
      ensures pendingRedactions == map[]
    {
      var h := item.event.head;
      match outcome
      case Undecryptable =>
        SetUndecryptable(h, UndecryptableMessage(h, item.nonce), item.embeds);
      case NotAMessage =>
      case RedactedInside(reason) => SetAndEmbed(RedactedMessage(h, reason), item.embeds);
      case Decrypted(content) => SetAndEmbed(EventMessage(h, content, item.nonce), item.embeds);
    }

    method PopulateEncrypted(item: PageItem, outcome: Decryption)
      requires pendingRedactions == map[]
      modifies this`tree, this`messagesMap, this`nonces, this`rawEncryptedEvents, this`pendingRedactions, this`sent
      ensures var h := item.event.head;
              var p := [DoSet(PlaceholderMessage(item.nonce, h.ts, h.sender, ""))] + AfterPlaceholder(roomID, item, outcome);
              Model() == ActAll(old(Model()), p) && sent == old(sent) + Told(old(Model()), p)
      ensures pendingRedactions == map[]
    {
      var h := item.event.head;
      var p := PlaceholderMessage(item.nonce, h.ts, h.sender, "");
      var _, _ := Set(p);
      SettleEncrypted(item, outcome);
      HeardFirst(old(sent), old(Model()), DoSet(p), AfterPlaceholder(roomID, item, outcome), listening);
    }

    /** The goroutine of one event of a page. */
    method PopulateEvent(item: PageItem)
      requires pendingRedactions == map[]
      modifies this`tree, this`messagesMap, this`nonces, this`rawEncryptedEvents, this`pendingRedactions, this`sent
      ensures Model() == Do(old(Model()), Page(item))
      ensures sent == old(sent) + Told(old(Model()), PageProgram(roomID, item))
      ensures pendingRedactions == map[]
    {
      var h := item.event.head;
      match item.event
      case Encrypted(_, outcome) =>
        if h.redactedBecause.Some? {
          SetAndEmbed(RedactedMessage(h, h.redactedBecause.value), item.embeds);
        } else {
          PopulateEncrypted(item, outcome);
        }
      case Plain(_, content) =>
        if h.redactedBecause.Some? {
          SetAndEmbed(RedactedMessage(h, h.redactedBecause.value), item.embeds);
        } else if content.Some? {
          SetAndEmbed(EventMessage(h, content.value, ""), item.embeds);
        }
      case Other(_) =>
    }

    /** The events of a page, each in a goroutine of its own that does what `PopulateEvent` does. */
    method PopulateTree(items: seq<PageItem>, sched: seq<nat>)
      requires Complete(Threads(roomID, items), sched)
      modifies this`tree, this`messagesMap, this`nonces, this`rawEncryptedEvents, this`pendingRedactions, this`sent
      ensures Model() == Interleave(old(Model()), Threads(roomID, items), sched)
      ensures sent == old(sent) + Told(old(Model()), Order(Threads(roomID, items), sched))
    {
      var threads: seq<seq<Action>> := [];
      for i := 0 to |items|
        invariant unchanged(this)
        invariant threads == Threads(roomID, items)[..i]
      {
        threads := threads + [PageProgram(roomID, items[i])];
      }
      assert threads == Threads(roomID, items);
      RunGoroutines(threads, sched);
    }

    /** `response` is the server's answer to the request from `prevBatch`. */
    method LoadNextMessages(response: Response<PageItem>, sched: seq<nat>) returns (more: bool)
      requires Complete(Threads(roomID, Added(Pager(), response)), sched)
      modifies this
      ensures Pager() == Load(old(Pager()), response)
      ensures Model() == Interleave(old(Model()), Threads(roomID, Added(old(Pager()), response)), sched)
      ensures sent == old(sent) + Told(old(Model()), Order(Threads(roomID, Added(old(Pager()), response)), sched))
      ensures more == !noMoreHistory && listening == old(listening)
    {
      if noMoreHistory {
        return false;
      }
      match response {
        case Failed =>
        case Chunk(events, end) =>
          if end == "" || end == prevBatch {
            noMoreHistory := true;
          }
          prevBatch := end;
          PopulateTree(events, sched);
      }
      more := !noMoreHistory;
    }

    method Chronological() returns (items: seq<Message>)
      ensures items == Reversed(tree)
    {
      items := [];
      var i := |tree|;
      while i > 0
        invariant 0 <= i <= |tree|
        invariant items == Reversed(tree)[..|tree| - i]
      {
        i := i - 1;
        items := items + [tree[i]];
      }
    }
  }
}
