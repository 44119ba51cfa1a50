/** Retries of events that could not be decrypted: what one retry and a round of retries change. */
module Retries {
  import opened Wrappers
  import opened Messages
  import opened SortedTree
  import opened Timeline
  import opened Runs
  import opened Schedule
  import opened Pages
  import opened Mirror
  import opened Lifecycle

  /** The entries a round of retries is about. */
  ghost function Undecrypted(s: State): set<string> {
    set k | k in s.index && s.index[k].undecryptable
  }

  /** The outcome makes an entry readable. */
  predicate Succeeds(outcome: Decryption) {
    outcome.Decrypted?
  }

  /** The entry exists as the snapshot says it does. */
  ghost predicate Current(s: State, m: Message) {
    m.id in s.index && s.index[m.id].undecryptable && m.undecryptable
  }

  /** A retry of the entry works out: its event is still there and now decrypts to a message. */
  predicate Curable(s: State, k: string, outcome: Decryption) {
    k in s.raw && Succeeds(outcome)
  }

  lemma ExchangeSameKey(t: Tree, e: Message, m: Message, clock: Clock)
    requires ClockedTree(t, clock) && e.ts == clock(e.id) && SameKey(e, m) && Has(t, e)
    ensures Ids(Exchange(t, e, m)) == Ids(t)
  {
    ExchangeIsMirroredIff(t, e, m, clock);
    ReplaceSame(t, e, clock);
  }

  lemma EntryIsThere(s: State, k: string, m: Message, clock: Clock)
    requires Inv(s, clock) && k in s.index && m.id == k && m.ts == clock(k)
    ensures Has(s.tree, m) && m.id in Ids(s.tree)
  {
    var x := s.index[k];
    assert x in s.tree && SameKey(x, m);
    HasSpec(s.tree, m);
    HasIsId(s.tree, m, clock);
  }

  /** A retry of a current snapshot moves nothing: the identifiers of the tree and their order stay. */
  lemma RetryKeepsOrder(s: State, m: Message, outcome: Decryption, clock: Clock)
    requires Inv(s, clock) && Current(s, m)
    ensures Ids(Do(s, Retry(m, outcome)).tree) == Ids(s.tree)
  {
    RetryResult(s, m, outcome);
    if RetrySucceeds(s, m, outcome) {
      var r := Stamped(s, RetryMessage(s, m, outcome));
      EntryIsThere(s, m.id, r, clock);
      SetTreeIs(s, RetryMessage(s, m, outcome));
      PutIds(s.tree, r);
      if m.id in s.nonces {
        EntryIsThere(s, m.id, s.nonces[m.id], clock);
        ExchangeSameKey(s.tree, s.nonces[m.id], r, clock);
      }
    }
  }

  /** A retry that works out takes exactly its own entry off the undecryptable ones; any other none. */
  lemma RetryProgress(s: State, m: Message, outcome: Decryption, clock: Clock)
    requires Inv(s, clock) && Current(s, m)
    ensures Undecrypted(Do(s, Retry(m, outcome))) == Undecrypted(s) - if Curable(s, m.id, outcome) then {m.id} else {}
  {
    forall k
      ensures k in Undecrypted(Do(s, Retry(m, outcome))) <==> k in Undecrypted(s) && !(Curable(s, k, outcome) && k == m.id)
    {
      UndecryptedAt(s, m, outcome, clock, k);
    }
  }

  /** So repeated successes use up the undecryptable entries. */
  lemma RetryCounts(s: State, m: Message, outcome: Decryption, clock: Clock)
    requires Inv(s, clock) && Current(s, m)
    ensures |Undecrypted(Do(s, Retry(m, outcome)))| == |Undecrypted(s)| - if Curable(s, m.id, outcome) then 1 else 0
  {
    var after := Undecrypted(Do(s, Retry(m, outcome)));
    RetryProgress(s, m, outcome, clock);
    if Curable(s, m.id, outcome) {
      assert Undecrypted(s) == after + {m.id};
    } else {
      assert Undecrypted(s) == after;
    }
  }

  lemma UndecryptedAt(s: State, m: Message, outcome: Decryption, clock: Clock, k: string)
    requires Inv(s, clock) && Current(s, m)
    ensures k in Undecrypted(Do(s, Retry(m, outcome))) <==> k in Undecrypted(s) && !(Curable(s, k, outcome) && k == m.id)
  {
    var s' := Do(s, Retry(m, outcome));
    if k == m.id {
      RetryEntry(s, m, outcome);
      RetryPanicsIff(s, m, outcome, clock);
    } else {
      StepFrame(s, Retry(m, outcome), clock, k);
    }
    assert k in Undecrypted(s') <==> At(s'.index, k).Some? && At(s'.index, k).value.undecryptable;
    assert k in Undecrypted(s) <==> At(s.index, k).Some? && At(s.index, k).value.undecryptable;
  }

  // ---------------------------------------------------------------- a round of retries

  /** The scan at the start of `retryDecryptAll`. */
  function Snapshot(t: Tree): seq<Message> {
    if t == [] then [] else (if t[0].undecryptable then [t[0]] else []) + Snapshot(t[1..])
  }

  function RetrySteps(ms: seq<Message>, outcome: string -> Decryption): (r: seq<Step>)
    ensures |r| == |ms| && forall i :: 0 <= i < |ms| ==> r[i] == Retry(ms[i], outcome(ms[i].id))
  {
    seq(|ms|, i requires 0 <= i < |ms| => Retry(ms[i], outcome(ms[i].id)))
  }

  /** The goroutines of a round: each works on what its own identifier held at the start. */
  function RetryThreads(s: State, ms: seq<Message>, outcome: string -> Decryption): (r: seq<seq<Action>>)
    ensures |r| == |ms| && forall i :: 0 <= i < |ms| ==> r[i] == RetryProgram(s, ms[i], outcome(ms[i].id))
  {
    seq(|ms|, i requires 0 <= i < |ms| => RetryProgram(s, ms[i], outcome(ms[i].id)))
  }

  ghost predicate DistinctMessages(ms: seq<Message>) {
    forall i, j :: 0 <= i < j < |ms| ==> ms[i].id != ms[j].id
  }

  ghost predicate AllCurrent(s: State, ms: seq<Message>) {
    forall i :: 0 <= i < |ms| ==> Current(s, ms[i])
  }

  lemma {:induction false} SnapshotItems(t: Tree, clock: Clock)
    requires ClockedTree(t, clock)
    ensures DistinctMessages(Snapshot(t))
    ensures forall x :: x in Snapshot(t) <==> x in t && x.undecryptable
  {
    if t != [] {
      assert forall x :: x in t <==> x == t[0] || x in t[1..];
      SnapshotItems(t[1..], clock);
      forall x | x in t[1..] ensures x.id != t[0].id {
        BeforeTotal(t[0], x);
      }
      var tail := Snapshot(t[1..]);
      forall j | 0 <= j < |tail| ensures tail[j].id != t[0].id {
        assert tail[j] in tail;
      }
    }
  }

  lemma SnapshotIsCurrent(s: State, clock: Clock)
    requires Inv(s, clock)
    ensures DistinctMessages(Snapshot(s.tree)) && AllCurrent(s, Snapshot(s.tree))
    ensures forall k :: k in Undecrypted(s) ==> s.index[k] in Snapshot(s.tree)
  {
    var ms := Snapshot(s.tree);
    SnapshotItems(s.tree, clock);
    forall i | 0 <= i < |ms| ensures Current(s, ms[i]) {
      assert ms[i] in ms;
    }
  }

  lemma RetryLeavesIndex(s: State, m: Message, outcome: Decryption, x: Message, clock: Clock)
    requires Inv(s, clock) && x.id != m.id
    ensures var s' := Do(s, Retry(m, outcome));
            At(s'.index, x.id) == At(s.index, x.id) && At(s'.raw, x.id) == At(s.raw, x.id)
    ensures Current(s, x) ==> Current(Do(s, Retry(m, outcome)), x)
    ensures forall o :: RetryProgram(Do(s, Retry(m, outcome)), x, o) == RetryProgram(s, x, o)
  {
    var s' := Do(s, Retry(m, outcome));
    StepFrame(s, Retry(m, outcome), clock, x.id);
    assert At(s'.index, x.id) == At(s.index, x.id);
    assert At(s'.raw, x.id) == At(s.raw, x.id);
  }

  /** Retrying one entry leaves the snapshots of the others current. */
  lemma RetryLeavesCurrent(s: State, m: Message, outcome: Decryption, ms: seq<Message>, clock: Clock)
    requires Inv(s, clock) && AllCurrent(s, ms)
    requires forall i :: 0 <= i < |ms| ==> ms[i].id != m.id
    ensures AllCurrent(Do(s, Retry(m, outcome)), ms)
  {
    forall i | 0 <= i < |ms| ensures Current(Do(s, Retry(m, outcome)), ms[i]) {
      RetryLeavesIndex(s, m, outcome, ms[i], clock);
    }
  }

  /** The other goroutines of a round do what they would after the first retry. */
  lemma ThreadsTail(s: State, ms: seq<Message>, outcome: string -> Decryption, clock: Clock)
    requires Inv(s, clock) && DistinctMessages(ms) && ms != []
    ensures RetryThreads(s, ms, outcome)[1..] ==
            RetryThreads(Do(s, Retry(ms[0], outcome(ms[0].id))), ms[1..], outcome)
  {
    var m, rest, o := ms[0], ms[1..], outcome(ms[0].id);
    forall i | 0 <= i < |rest|
      ensures RetryProgram(Do(s, Retry(m, o)), rest[i], outcome(rest[i].id)) == RetryProgram(s, rest[i], outcome(rest[i].id))
    {
      RetryLeavesIndex(s, m, o, rest[i], clock);
    }
  }

  lemma {:induction false} RoundIsSteps(s: State, ms: seq<Message>, outcome: string -> Decryption, clock: Clock)
    requires Inv(s, clock) && DistinctMessages(ms) && AllCurrent(s, ms)
    ensures OneByOne(s, RetryThreads(s, ms, outcome)) == DoAll(s, RetrySteps(ms, outcome))
    decreases |ms|
  {
    if ms != [] {
      FirstRetryReady(s, ms, outcome, clock);
      ThreadsTail(s, ms, outcome, clock);
      StepsTail(s, ms, outcome);
      RoundIsSteps(Do(s, Retry(ms[0], outcome(ms[0].id))), ms[1..], outcome, clock);
    }
  }

  lemma StepsTail(s: State, ms: seq<Message>, outcome: string -> Decryption)
    requires ms != []
    ensures DoAll(s, RetrySteps(ms, outcome)) ==
            DoAll(Do(s, Retry(ms[0], outcome(ms[0].id))), RetrySteps(ms[1..], outcome))
  {
    assert RetrySteps(ms, outcome)[1..] == RetrySteps(ms[1..], outcome);
  }

  lemma FirstRetryReady(s: State, ms: seq<Message>, outcome: string -> Decryption, clock: Clock)
    requires Inv(s, clock) && DistinctMessages(ms) && AllCurrent(s, ms) && ms != []
    ensures var s1 := Do(s, Retry(ms[0], outcome(ms[0].id)));
            Inv(s1, clock) && AllCurrent(s1, ms[1..]) && DistinctMessages(ms[1..])
  {
    var m, o := ms[0], outcome(ms[0].id);
    StepKeepsInv(s, Retry(m, o), clock);
    RetryLeavesCurrent(s, m, o, ms[1..], clock);
  }

  lemma {:induction false} StepsKeepOrder(s: State, ms: seq<Message>, outcome: string -> Decryption, clock: Clock)
    requires Inv(s, clock) && DistinctMessages(ms) && AllCurrent(s, ms)
    ensures Ids(DoAll(s, RetrySteps(ms, outcome)).tree) == Ids(s.tree)
    decreases |ms|
  {
    if ms != [] {
      FirstRetryReady(s, ms, outcome, clock);
      StepsTail(s, ms, outcome);
      RetryKeepsOrder(s, ms[0], outcome(ms[0].id), clock);
      StepsKeepOrder(Do(s, Retry(ms[0], outcome(ms[0].id))), ms[1..], outcome, clock);
    }
  }

  lemma RoundApart(s: State, ms: seq<Message>, outcome: string -> Decryption)
    requires DistinctMessages(ms) && forall k :: k in s.raw ==> s.raw[k].id == k
    ensures Apart(RetryThreads(s, ms, outcome), RoundFeet(ms))
  {
  }

  function RoundFeet(ms: seq<Message>): (r: seq<set<string>>)
    ensures |r| == |ms| && forall i :: 0 <= i < |ms| ==> r[i] == {ms[i].id}
  {
    seq(|ms|, i requires 0 <= i < |ms| => {ms[i].id})
  }

  lemma ThreadIsRetry(s: State, ms: seq<Message>, outcome: string -> Decryption, i: nat)
    requires i < |ms|
    ensures ActAll(s, RetryThreads(s, ms, outcome)[i]) == Do(s, Retry(ms[i], outcome(ms[i].id)))
  {
  }

  lemma InOwnFoot(ms: seq<Message>, i: nat)
    requires i < |ms|
    ensures ms[i].id in RoundFeet(ms)[i]
  {
  }

  /** A round leaves under a retried identifier what the retry alone would have left. */
  lemma RoundOwn(s: State, outcome: string -> Decryption, sched: seq<nat>, clock: Clock, i: nat)
    requires Inv(s, clock) && i < |Snapshot(s.tree)|
    requires Complete(RetryThreads(s, Snapshot(s.tree), outcome), sched)
    ensures var ms := Snapshot(s.tree);
            AgreeAt(Interleave(s, RetryThreads(s, ms, outcome), sched), Do(s, Retry(ms[i], outcome(ms[i].id))), ms[i].id)
  {
    var ms := Snapshot(s.tree);
    SnapshotIsCurrent(s, clock);
    RoundApart(s, ms, outcome);
    ThreadIsRetry(s, ms, outcome, i);
    InOwnFoot(ms, i);
    InterleaveAt(s, RetryThreads(s, ms, outcome), RoundFeet(ms), sched, i, ms[i].id);
  }

  lemma RoundElsewhere(s: State, outcome: string -> Decryption, sched: seq<nat>, clock: Clock, k: string)
    requires Inv(s, clock) && k !in Undecrypted(s)
    requires Complete(RetryThreads(s, Snapshot(s.tree), outcome), sched)
    ensures AgreeAt(Interleave(s, RetryThreads(s, Snapshot(s.tree), outcome), sched), s, k)
  {
    var ms := Snapshot(s.tree);
    SnapshotIsCurrent(s, clock);
    RoundApart(s, ms, outcome);
    forall i | 0 <= i < |ms| ensures k !in RoundFeet(ms)[i] {
      assert Current(s, ms[i]);
    }
    InterleaveElsewhere(s, RetryThreads(s, ms, outcome), RoundFeet(ms), sched, k);
  }

  /** What a round makes of one entry, whatever the order of its goroutines. */
  lemma RoundAt(s: State, outcome: string -> Decryption, sched: seq<nat>, clock: Clock, k: string)
    requires Inv(s, clock)
    requires Complete(RetryThreads(s, Snapshot(s.tree), outcome), sched)
    ensures var f := Interleave(s, RetryThreads(s, Snapshot(s.tree), outcome), sched);
            k in Undecrypted(f) <==> k in Undecrypted(s) && !Curable(s, k, outcome(k))
  {
    var ms := Snapshot(s.tree);
    var f := Interleave(s, RetryThreads(s, ms, outcome), sched);
    if k in Undecrypted(s) {
      SnapshotIsCurrent(s, clock);
      var i :| 0 <= i < |ms| && ms[i] == s.index[k];
      assert Current(s, ms[i]);
      RoundOwn(s, outcome, sched, clock, i);
      SameFlag(f, Do(s, Retry(ms[i], outcome(k))), k);
      UndecryptedAt(s, ms[i], outcome(k), clock, k);
    } else {
      RoundElsewhere(s, outcome, sched, clock, k);
      SameFlag(f, s, k);
    }
  }

  lemma SameFlag(s: State, s': State, k: string)
    requires AgreeAt(s, s', k)
    ensures k in Undecrypted(s) <==> k in Undecrypted(s')
  {
  }

  /** How a round ends: a panic of one goroutine ends the process. */
  datatype RoundEnd = Finished(s: State) | Crashed

  function Round(s: State, outcome: string -> Decryption, sched: seq<nat>): RoundEnd
    requires Complete(RetryThreads(s, Snapshot(s.tree), outcome), sched)
  {
    var ms := Snapshot(s.tree);
    if exists i :: 0 <= i < |ms| && RetryEnds(s, ms[i], outcome(ms[i].id)).Panics? then Crashed
    else Finished(Interleave(s, RetryThreads(s, ms, outcome), sched))
  }

  /** A round of retries crashes exactly if the kept event of some undecryptable entry decrypts to a
      message that is redacted inside. Otherwise, in any order of its goroutines, the timeline keeps its
      identifiers and their order, and an entry is still undecryptable exactly if it was and its event
      is gone or did not decrypt to a message. */
  lemma RoundSettles(s: State, outcome: string -> Decryption, sched: seq<nat>, clock: Clock)
    requires Inv(s, clock)
    requires Complete(RetryThreads(s, Snapshot(s.tree), outcome), sched)
    ensures Round(s, outcome, sched).Crashed? <==>
            exists k :: k in Undecrypted(s) && k in s.raw && outcome(k).RedactedInside?
    ensures var e := Round(s, outcome, sched);
      e.Finished? ==>
        && Inv(e.s, clock)
        && Ids(e.s.tree) == Ids(s.tree)
        && (forall k :: k in Undecrypted(e.s) <==> k in Undecrypted(s) && !Curable(s, k, outcome(k)))
  {
    RoundCrashes(s, outcome, sched, clock);
    RoundKeepsOrder(s, outcome, sched, clock);
    forall k ensures var f := Interleave(s, RetryThreads(s, Snapshot(s.tree), outcome), sched);
                     k in Undecrypted(f) <==> k in Undecrypted(s) && !Curable(s, k, outcome(k)) {
      RoundAt(s, outcome, sched, clock, k);
    }
  }

  lemma GoroutinePanicsIff(s: State, outcome: string -> Decryption, clock: Clock, i: nat)
    requires Inv(s, clock) && i < |Snapshot(s.tree)|
    ensures var m := Snapshot(s.tree)[i];
      && m.id in Undecrypted(s)
      && (RetryEnds(s, m, outcome(m.id)).Panics? <==> m.id in s.raw && outcome(m.id).RedactedInside?)
  {
    SnapshotIsCurrent(s, clock);
    assert Current(s, Snapshot(s.tree)[i]);
    RetryPanicsIff(s, Snapshot(s.tree)[i], outcome(Snapshot(s.tree)[i].id), clock);
  }

  lemma RoundCrashes(s: State, outcome: string -> Decryption, sched: seq<nat>, clock: Clock)
    requires Inv(s, clock)
    requires Complete(RetryThreads(s, Snapshot(s.tree), outcome), sched)
    ensures Round(s, outcome, sched).Crashed? <==>
            exists k :: k in Undecrypted(s) && k in s.raw && outcome(k).RedactedInside?
  {
    var ms := Snapshot(s.tree);
    if k :| k in Undecrypted(s) && k in s.raw && outcome(k).RedactedInside? {
      SnapshotIsCurrent(s, clock);
      var i :| 0 <= i < |ms| && ms[i] == s.index[k];
      assert Agree(s);
      GoroutinePanicsIff(s, outcome, clock, i);
    } else if i :| 0 <= i < |ms| && RetryEnds(s, ms[i], outcome(ms[i].id)).Panics? {
      GoroutinePanicsIff(s, outcome, clock, i);
    }
  }

  lemma RoundKeepsOrder(s: State, outcome: string -> Decryption, sched: seq<nat>, clock: Clock)
    requires Inv(s, clock)
    requires Complete(RetryThreads(s, Snapshot(s.tree), outcome), sched)
    ensures var f := Interleave(s, RetryThreads(s, Snapshot(s.tree), outcome), sched);
            f == DoAll(s, RetrySteps(Snapshot(s.tree), outcome)) && Inv(f, clock) && Ids(f.tree) == Ids(s.tree)
  {
    var ms := Snapshot(s.tree);
    SnapshotIsCurrent(s, clock);
    RoundApart(s, ms, outcome);
    ScheduleIndependent(s, RetryThreads(s, ms, outcome), RoundFeet(ms), sched);
    RoundIsSteps(s, ms, outcome, clock);
    RunKeepsInv(s, RetrySteps(ms, outcome), clock);
    StepsKeepOrder(s, ms, outcome, clock);
  }

  // ---------------------------------------------------------------- a redacted entry that is still encrypted

  /** Redacting an entry does not clear its undecryptable flag, so a later retry works on it. If its
      event is still there, the redaction is lost when that decrypts to a message, the process is lost
      when it decrypts to one redacted inside, and the redaction holds otherwise. */
  lemma RetryAfterRedaction(s: State, id: string, reason: string, outcome: Decryption, clock: Clock)
    requires Inv(s, clock) && !IsPlaceholder(id) && id != "" && id in s.index
    ensures var s1 := Do(s, Redaction(id, reason));
            var open := s.index[id].undecryptable && id in s.raw;
      && id in s1.index
      && (ShowsRedacted(Do(s1, Retry(s1.index[id], outcome)), id) <==> !(open && outcome.Decrypted?))
      && (RetryEnds(s1, s1.index[id], outcome).Panics? <==> open && outcome.RedactedInside?)
  {
    var s1 := Do(s, Redaction(id, reason));
    StepKeepsInv(s, Redaction(id, reason), clock);
    RedactionEntry(s, id, reason, clock);
    assert At(s1.index, id).Some?;
    assert s1.raw == s.raw by {
      RedactionResult(s, id, reason);
      RemoveKeepsInv(s, s.index[id], clock);
      SetTables(Removed(s, s.index[id]), RedactedFrom(s.index[id], reason));
    }
    RetryPanicsIff(s1, s1.index[id], outcome, clock);
    RedactionHoldsIff(s1, Retry(s1.index[id], outcome), id, clock);
  }
}
