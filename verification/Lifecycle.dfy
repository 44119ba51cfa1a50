/** The life of one entry: a local send and its echo, a redaction and what may undo it, and the
    retries of events that could not be decrypted. */
module Lifecycle {
  import opened Wrappers
  import opened Messages
  import opened SortedTree
  import opened Timeline
  import opened Runs
  import opened Schedule
  import opened Pages
  import opened Mirror

  // ---------------------------------------------------------------- frames of completed steps

  /** The identifiers a completed step may touch. */
  function StepFoot(step: Step): set<string> {
    match step
    case LocalSend(nonce, _, _, _) => {nonce}
    case Live(h, _, txn) => {h.id} + if txn != "" then {txn} else {}
    case Page(item) => Foot(item)
    case Embeds(m) => {m.id}
    case Redaction(id, _) => {id}
    case Retry(m, _) => {m.id}
  }

  lemma {:induction false} ProgramFrame(s: State, p: seq<Action>, ids: set<string>, k: string)
    requires Solid(s) && Within(p, ids) && k !in ids
    ensures AgreeAt(s, ActAll(s, p), k)
    decreases |p|
  {
    if p != [] {
      assert Touched(p[0]) <= ids;
      ActFrame(s, p[0], k);
      ActItems(s, p[0]);
      ProgramFrame(Act(s, p[0]), p[1..], ids, k);
    }
  }

  /** A completed step leaves the entries of other identifiers alone. */
  lemma StepFrame(s: State, step: Step, clock: Clock, k: string)
    requires Inv(s, clock) && k !in StepFoot(step)
    ensures AgreeAt(s, Do(s, step), k)
  {
    if step.Page? {
      ProgramWithin(s.room, step.item);
    }
    ProgramFrame(s, Program(s, step), StepFoot(step), k);
  }

  lemma {:induction false} RunFrame(s: State, steps: seq<Step>, clock: Clock, k: string)
    requires Inv(s, clock) && AllFit(steps, clock)
    requires forall i :: 0 <= i < |steps| ==> k !in StepFoot(steps[i])
    ensures AgreeAt(s, DoAll(s, steps), k)
    decreases |steps|
  {
    if steps != [] {
      StepFrame(s, steps[0], clock, k);
      StepKeepsInv(s, steps[0], clock);
      RunFrame(Do(s, steps[0]), steps[1..], clock, k);
    }
  }

  // ---------------------------------------------------------------- a local send and its echo

  lemma SendWaits(s: State, nonce: string, ts: int, author: string, content: string, clock: Clock)
    requires Inv(s, clock) && Fits(LocalSend(nonce, ts, author, content), clock)
    ensures var s1 := Do(s, LocalSend(nonce, ts, author, content));
            Inv(s1, clock) && nonce in s1.index && s1.room == s.room
  {
    var p := PlaceholderMessage(nonce, ts, author, content);
    StepKeepsInv(s, LocalSend(nonce, ts, author, content), clock);
    ActCons(s, DoSet(p), []);
    SetTables(s, p);
  }

  lemma EchoTables(s: State, nonce: string, h: EventHead, echoed: string, clock: Clock)
    requires Inv(s, clock) && HeadFits(h, clock) && IsPlaceholder(nonce) && nonce in s.index
    ensures var f := Do(s, Live(h, echoed, nonce));
      && nonce !in f.nonces && nonce !in f.index && f.room == s.room
      && At(f.index, h.id) == Some(EventMessage(h, echoed, "").(roomID := f.room))
  {
    var m := EventMessage(h, echoed, nonce);
    ActCons(s, DoSet(m), []);
    SetTables(s, m);
  }

  lemma EchoSettles(s: State, nonce: string, h: EventHead, echoed: string, clock: Clock)
    requires Inv(s, clock) && HeadFits(h, clock) && IsPlaceholder(nonce) && nonce in s.index
    ensures var f := Do(s, Live(h, echoed, nonce));
            Inv(f, clock) && EchoStands(f, nonce, h, echoed)
  {
    StepKeepsInv(s, Live(h, echoed, nonce), clock);
    EchoTables(s, nonce, h, echoed, clock);
    OnlyEntry(Do(s, Live(h, echoed, nonce)), h.id);
  }

  /** Where the tables agree the tree's only entry for an identifier is the indexed one. */
  lemma OnlyEntry(s: State, id: string)
    requires Agree(s) && id in s.index
    ensures forall x :: x in s.tree && x.id == id <==> x == s.index[id]
  {
  }

  /** The tree's only entry for the event is the echo, and nothing stands under the nonce any more. */
  ghost predicate EchoStands(f: State, nonce: string, h: EventHead, echoed: string) {
    && nonce !in f.nonces && (forall x :: x in f.tree ==> x.id != nonce)
    && (forall x :: x in f.tree && x.id == h.id <==> x == EventMessage(h, echoed, "").(roomID := f.room))
  }

  /** A local send, then any steps that name another nonce, then the server's echo: the timeline has
      exactly one entry for the message, the echo, and no placeholder is left. */
  lemma EchoReplacesSend(s: State, nonce: string, ts: int, author: string, content: string,
                         between: seq<Step>, h: EventHead, echoed: string, clock: Clock)
    requires Inv(s, clock) && Fits(LocalSend(nonce, ts, author, content), clock) && HeadFits(h, clock)
    requires AllFit(between, clock)
    requires forall i :: 0 <= i < |between| ==> nonce !in StepFoot(between[i])
    ensures var f := Do(DoAll(Do(s, LocalSend(nonce, ts, author, content)), between), Live(h, echoed, nonce));
            Inv(f, clock) && EchoStands(f, nonce, h, echoed)
  {
    var s1 := Do(s, LocalSend(nonce, ts, author, content));
    var s2 := DoAll(s1, between);
    SendWaits(s, nonce, ts, author, content, clock);
    RunFrame(s1, between, clock, nonce);
    SameEntries(s1, s2, nonce);
    RunKeepsInv(s1, between, clock);
    EchoSettles(s2, nonce, h, echoed, clock);
  }

  // ---------------------------------------------------------------- redactions

  /** The steps after which `id` no longer shows as redacted: writes of another state of the message. */
  predicate Unredacts(s: State, step: Step, id: string) {
    match step
    case LocalSend(_, _, _, _) => false
    case Live(h, _, txn) => h.id == id || (txn == id && id in s.nonces)
    case Page(item) =>
      var m := FinalMessage(s.room, item);
      item.event.head.id == id && m.Some? && !m.value.redacted
    case Embeds(m) => m.id == id && !m.redacted
    case Redaction(_, _) => false
    case Retry(m, outcome) => m.id == id && RetrySucceeds(s, m, outcome) && outcome.Decrypted?
  }

  ghost predicate ShowsRedacted(s: State, id: string) {
    id in s.index && s.index[id].redacted
  }

  /** The entry that stands under `id` after a step that touches it. */
  lemma EntryAfter(s: State, step: Step, id: string, clock: Clock)
    requires Inv(s, clock) && Fits(step, clock) && !IsPlaceholder(id) && id in s.index
    ensures var e := At(Do(s, step).index, id);
      match step
      case LocalSend(_, _, _, _) => e == At(s.index, id)
      case Live(h, content, txn) =>
        (if h.id == id then e == Some(EventMessage(h, content, "").(roomID := s.room))
         else if txn == id && txn != "" && id in s.nonces then e == None else e == At(s.index, id))
      case Page(item) =>
        e == (if item.event.head.id == id && FinalMessage(s.room, item).Some? then FinalMessage(s.room, item) else At(s.index, id))
      case Embeds(m) => e == if m.id == id then Some(m) else At(s.index, id)
      case Redaction(other, reason) =>
        e == (if other == id then Some(RedactedFrom(s.index[id], reason).(roomID := s.room)) else At(s.index, id))
      case Retry(m, outcome) =>
        e == (if m.id == id && RetrySucceeds(s, m, outcome) then Some(Stamped(s, RetryMessage(s, m, outcome)))
              else At(s.index, id))
  {
    if id !in StepFoot(step) {
      StepFrame(s, step, clock, id);
    } else {
      match step
      case LocalSend(_, _, _, _) =>
      case Live(h, content, txn) => LiveEntry(s, h, content, txn, id);
      case Page(item) => ItemLeaves(s, item);
      case Embeds(m) => ActCons(s, WriteBack(m), []);
      case Redaction(_, reason) => RedactionEntry(s, id, reason, clock);
      case Retry(m, outcome) => RetryEntry(s, m, outcome);
    }
  }

  lemma LiveEntry(s: State, h: EventHead, content: string, txn: string, id: string)
    requires Solid(s)
    ensures At(Do(s, Live(h, content, txn)).index, id) ==
            if h.id == id then Some(EventMessage(h, content, "").(roomID := s.room))
            else if txn == id && txn != "" && id in s.nonces then None else At(s.index, id)
  {
    ActCons(s, DoSet(EventMessage(h, content, txn)), []);
    SetTables(s, EventMessage(h, content, txn));
  }

  lemma RedactionEntry(s: State, id: string, reason: string, clock: Clock)
    requires Inv(s, clock) && !IsPlaceholder(id) && id in s.index
    ensures At(Do(s, Redaction(id, reason)).index, id) == Some(RedactedFrom(s.index[id], reason).(roomID := s.room))
  {
    RedactionResult(s, id, reason);
    RemoveKeepsInv(s, s.index[id], clock);
    SetTables(Removed(s, s.index[id]), RedactedFrom(s.index[id], reason));
  }

  lemma RetryEntry(s: State, m: Message, outcome: Decryption)
    requires Solid(s) && (m.id in s.raw ==> s.raw[m.id].id == m.id)
    ensures At(Do(s, Retry(m, outcome)).index, m.id) ==
            if RetrySucceeds(s, m, outcome) then Some(Stamped(s, RetryMessage(s, m, outcome)))
            else At(s.index, m.id)
  {
    RetryResult(s, m, outcome);
    if RetrySucceeds(s, m, outcome) {
      SetTables(s, RetryMessage(s, m, outcome));
    }
  }

  /** Exactly the stale or repeated writes undo a redaction. */
  lemma RedactionHoldsIff(s: State, step: Step, id: string, clock: Clock)
    requires Inv(s, clock) && Fits(step, clock) && !IsPlaceholder(id) && id != "" && ShowsRedacted(s, id)
    ensures ShowsRedacted(Do(s, step), id) <==> !Unredacts(s, step, id)
  {
    EntryAfter(s, step, id, clock);
    if step.Retry? {
      RetryPanicsIff(s, step.m, step.outcome, clock);
    }
    var e := At(Do(s, step).index, id);
    assert ShowsRedacted(Do(s, step), id) <==> e.Some? && e.value.redacted;
  }
}
