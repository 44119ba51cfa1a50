/** Whether the own device is verified: a flag and a cache in front of the trust check. */
module Verified {
  import opened Wrappers

  /** How the trust check ends: trusted; device not in the crypto store, which the check reports as
      false without an error; or an error. */
  datatype Check = Trusted | Missing | Fails

  datatype Cached = Cached(value: bool, fetchedAt: int)

  /** `refreshes` counts the background refreshes that have not ended. */
  datatype State = State(seen: bool, cached: Option<Cached>, refreshes: nat)

  datatype Answer = Says(value: bool) | Panics

  const TTL := 30 * 60 * 1_000_000_000

  const START := State(false, None, 0)

  /** What a call of the check leaves in the cache: errors are not stored. */
  function Fill(s: State, now: int, check: Check): State {
    if check.Fails? then s else s.(cached := Some(Cached(check.Trusted?, now)))
  }

  /** `check` is what the check would say now. A question that finds nothing cached may join the flight
      of a refresh that has not ended, and a refresh that of somebody else. */
  datatype Op =
    | Ask(now: int, check: Check, joins: bool)           // IsVerified
    | RefreshDone(now: int, check: Check, joined: bool)
    | VerificationDone
    | KeysArrived                                        // the cross-signing handler empties the cache

  /** Nothing is cached and the question gets a refresh flight's result, which is nothing. */
  predicate Joins(s: State, op: Op) {
    op.Ask? && s.cached == None && s.refreshes > 0 && op.joins
  }

  function After(s: State, op: Op): State {
    match op
    case Ask(now, check, _) =>
      if !s.seen then s.(seen := check.Trusted?)
      else if s.cached.Some? then
        if now - s.cached.value.fetchedAt > TTL then s.(refreshes := s.refreshes + 1) else s
      else if Joins(s, op) then s
      else Fill(s, now, check)
    case RefreshDone(now, check, joined) =>
      if s.refreshes == 0 then s
      else (if joined then s else Fill(s, now, check)).(refreshes := s.refreshes - 1)
    case VerificationDone => s.(cached := None, seen := false)
    case KeysArrived => s.(cached := None)
  }

  function AnswerTo(s: State, op: Op): Answer
    requires op.Ask?
  {
    if !s.seen then Says(op.check.Trusted?)
    else if s.cached.Some? then Says(s.cached.value.value)
    else if Joins(s, op) then Panics
    else Says(op.check.Trusted?)
  }

  function AfterAll(s: State, ops: seq<Op>): State
    decreases |ops|
  {
    if ops == [] then s else AfterAll(After(s, ops[0]), ops[1..])
  }

  /** The check runs in this operation, ends as `check`, and its answer goes into the cache unless it failed. */
  predicate Stores(s: State, op: Op, check: Check) {
    match op
    case Ask(_, c, _) => c == check && s.seen && s.cached == None && !Joins(s, op)
    case RefreshDone(_, c, joined) => c == check && s.refreshes > 0 && !joined
    case _ => false
  }

  /** The check runs in this operation and ends as `check`. */
  predicate Ran(s: State, op: Op, check: Check) {
    Stores(s, op, check) || (op.Ask? && op.check == check && !s.seen)
  }

  predicate EverRan(s: State, ops: seq<Op>, check: Check)
    decreases |ops|
  {
    ops != [] && (Ran(s, ops[0], check) || EverRan(After(s, ops[0]), ops[1..], check))
  }

  predicate EverStores(s: State, ops: seq<Op>, check: Check)
    decreases |ops|
  {
    ops != [] && (Stores(s, ops[0], check) || EverStores(After(s, ops[0]), ops[1..], check))
  }

  /** `true` is believed only after a check that succeeded, `false` is cached only after a check that
      found no device. */
  predicate Justified(s: State, trusted: bool, missing: bool) {
    && (s.seen ==> trusted)
    && (s.cached.Some? && s.cached.value.value ==> trusted)
    && (s.cached.Some? && !s.cached.value.value ==> missing)
  }

  lemma {:induction false} JustifiedRun(s: State, ops: seq<Op>, trusted: bool, missing: bool)
    requires Justified(s, trusted, missing)
    ensures Justified(AfterAll(s, ops), trusted || EverRan(s, ops, Trusted), missing || EverRan(s, ops, Missing))
    decreases |ops|
  {
    if ops != [] {
      JustifiedRun(After(s, ops[0]), ops[1..],
                   trusted || Ran(s, ops[0], Trusted), missing || Ran(s, ops[0], Missing));
    }
  }

  /** `IsVerified` answers true only if this or an earlier trust check succeeded, and as long as no
      check has found the device missing the cache holds nothing but true. */
  lemma TrueIsEarned(ops: seq<Op>, op: Op)
    requires op.Ask?
    ensures AnswerTo(AfterAll(START, ops), op) == Says(true) ==>
              EverRan(START, ops, Trusted) || op.check == Trusted
    ensures HoldsFalse(AfterAll(START, ops)) ==> EverRan(START, ops, Missing)
  {
    JustifiedRun(START, ops, false, false);
  }

  predicate HoldsFalse(s: State) {
    s.cached.Some? && !s.cached.value.value
  }

  /** The cache comes to hold false at some point of a run exactly if a check finds the device missing
      where its answer is stored: in a question with the flag up, nothing cached and no refresh to join,
      or in a background refresh of its own. While the flag is down a missing device is not stored. */
  lemma {:induction false} FalseIsCachedIff(s: State, ops: seq<Op>)
    requires !HoldsFalse(s)
    ensures (exists n :: 0 <= n <= |ops| && HoldsFalse(AfterAll(s, ops[..n]))) <==> EverStores(s, ops, Missing)
    decreases |ops|
  {
    if ops != [] {
      var s1, rest := After(s, ops[0]), ops[1..];
      forall n | 0 < n <= |ops| ensures AfterAll(s, ops[..n]) == AfterAll(s1, rest[..n - 1]) {
        assert ops[..n][1..] == rest[..n - 1];
      }
      if HoldsFalse(s1) {
        assert Stores(s, ops[0], Missing);
        assert AfterAll(s1, rest[..0]) == s1;
        assert HoldsFalse(AfterAll(s, ops[..1]));
      } else {
        FalseIsCachedIff(s1, rest);
        assert !Stores(s, ops[0], Missing);
        if EverStores(s1, rest, Missing) {
          var n :| 0 <= n <= |rest| && HoldsFalse(AfterAll(s1, rest[..n]));
          assert rest[..n] == rest[..(n + 1) - 1];
          assert HoldsFalse(AfterAll(s, ops[..n + 1]));
        } else if n :| 0 <= n <= |ops| && HoldsFalse(AfterAll(s, ops[..n])) {
          assert n > 0;
          assert HoldsFalse(AfterAll(s1, rest[..n - 1]));
        }
      }
    }
  }

  /** Such a run: the device verifies, and is gone when the check next runs. */
  lemma FalseIsCached(now: int)
    ensures AfterAll(START, [Ask(now, Trusted, false), Ask(now, Missing, false)]).cached == Some(Cached(false, now))
  {
    var a, b := Ask(now, Trusted, false), Ask(now, Missing, false);
    assert [a, b][1..] == [b] && [b][1..] == [];
    assert AfterAll(After(START, a), [b]) == After(After(START, a), b);
  }

  /** Until the next question, nothing restores the flag that a finished verification has reset. */
  lemma {:induction false} FlagStaysDown(s: State, between: seq<Op>)
    requires !s.seen && forall i :: 0 <= i < |between| ==> !between[i].Ask?
    ensures !AfterAll(s, between).seen
    decreases |between|
  {
    if between != [] {
      FlagStaysDown(After(s, between[0]), between[1..]);
    }
  }

  /** Where questions do not overlap, the first after a finished verification is decided by a fresh
      check, whatever refreshes end and whatever is invalidated in between. */
  lemma FreshAfterVerification(s: State, between: seq<Op>, op: Op)
    requires op.Ask? && forall i :: 0 <= i < |between| ==> !between[i].Ask?
    ensures AnswerTo(AfterAll(After(s, VerificationDone), between), op) == Says(op.check.Trusted?)
  {
    FlagStaysDown(After(s, VerificationDone), between);
  }

  /** After a verification, and after the keys arrive, nothing that was known before decides an answer: in
      every run an answer is the verdict of a check that ran since, or runs in the question itself. True
      needs a check that found the device trusted, false one that did not. */
  lemma NothingOldIsAnswered(s: State, reset: Op, ops: seq<Op>, op: Op)
    requires op.Ask? && (reset.VerificationDone? || reset.KeysArrived?)
    ensures var s1 := After(s, reset);
            var f, a := AfterAll(s1, ops), AnswerTo(AfterAll(s1, ops), op);
      && (a == Says(true) ==> EverRan(s1, ops, Trusted) || Ran(f, op, Trusted))
      && (a == Says(false) ==> EverRan(s1, ops, Missing) || Ran(f, op, Missing) || Ran(f, op, Fails))
  {
    OnlySinceRun(After(s, reset), ops, false, false);
  }

  /** What is cached was found by a check since. */
  predicate OnlySince(s: State, trusted: bool, missing: bool) {
    s.cached.Some? ==> if s.cached.value.value then trusted else missing
  }

  lemma {:induction false} OnlySinceRun(s: State, ops: seq<Op>, trusted: bool, missing: bool)
    requires OnlySince(s, trusted, missing)
    ensures OnlySince(AfterAll(s, ops), trusted || EverRan(s, ops, Trusted), missing || EverRan(s, ops, Missing))
    decreases |ops|
  {
    if ops != [] {
      OnlySinceRun(After(s, ops[0]), ops[1..],
                   trusted || Ran(s, ops[0], Trusted), missing || Ran(s, ops[0], Missing));
    }
  }

  /** A question starts a background refresh exactly if it is answered from the cache with a verdict more
      than half an hour old. */
  lemma AskRefreshesIff(s: State, now: int, check: Check, joins: bool)
    ensures var s' := After(s, Ask(now, check, joins));
      && s'.refreshes == s.refreshes +
           (if s.seen && s.cached.Some? && now - s.cached.value.fetchedAt > 1_800_000_000_000 then 1 else 0)
      && (s.cached.Some? ==> s'.cached == s.cached)
  {
  }

  /** The fields of the session, updated in place. */
  class Session {
    var seenAsVerified: bool
    var verifiedCache: Option<Cached>
    var refreshes: nat

    function Model(): State
      reads this
    {
      State(seenAsVerified, verifiedCache, refreshes)
    }

    /** `verifiedCache.Get`. */
    method GetCached(now: int, check: Check, joins: bool) returns (r: Answer)
      requires seenAsVerified
      modifies this`verifiedCache, this`refreshes
      ensures Model() == After(old(Model()), Ask(now, check, joins)) && r == AnswerTo(old(Model()), Ask(now, check, joins))
    {
      if verifiedCache.Some? {
        if now - verifiedCache.value.fetchedAt > TTL {
          refreshes := refreshes + 1;
        }
        return Says(verifiedCache.value.value);
      }
      if refreshes > 0 && joins {
        return Panics;
      }
      if !check.Fails? {
        verifiedCache := Some(Cached(check.Trusted?, now));
      }
      r := Says(check.Trusted?);
    }

    method IsVerified(now: int, check: Check, joins: bool) returns (r: Answer)
      modifies this
      ensures Model() == After(old(Model()), Ask(now, check, joins)) && r == AnswerTo(old(Model()), Ask(now, check, joins))
    {
      if seenAsVerified {
        r := GetCached(now, check, joins);
        return;
      }
      var verified := check.Trusted?;
      seenAsVerified := verified;
      r := Says(verified);
    }

    method OnVerificationDone()
      modifies this`verifiedCache, this`seenAsVerified
      ensures Model() == After(old(Model()), VerificationDone)
    {
      verifiedCache := None;
      seenAsVerified := false;
    }
  }
}
