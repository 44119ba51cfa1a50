/** The token refresh loop and the 64-bit arithmetic of its waiting time. */
module TokenRefresh {

  const TWO_63 := 0x8000_0000_0000_0000
  const TWO_64 := 0x1_0000_0000_0000_0000

  /** Nanoseconds. */
  const MILLISECOND := 1_000_000
  const MIN_WAIT := 30_000_000_000
  const RETRY_DELAY := 30_000_000_000
  const REFRESH_PERCENT := 80

  /** The largest lifetime in milliseconds whose waiting time does not overflow. */
  const MAX_EXACT := 115_292_150_460

  /** The value of an integer in a signed 64-bit word. */
  function Wrap64(x: int): int {
    (x + TWO_63) % TWO_64 - TWO_63
  }

  /** Go's division. */
  function TruncDiv(x: int, y: int): int
    requires y > 0
  {
    if x >= 0 then x / y else -((-x) / y)
  }

  predicate IsInt64(x: int) {
    -TWO_63 <= x < TWO_63
  }

  /** The wait is never shorter than the floor, whatever overflows. */
  function RefreshWait(expiresInMs: int): (wait: int)
    ensures wait >= MIN_WAIT
  {
    var d := TruncDiv(Wrap64(Wrap64(expiresInMs * MILLISECOND) * REFRESH_PERCENT), 100);
    if d < MIN_WAIT then MIN_WAIT else d
  }

  /** The wait without a word size. */
  function ExactWait(expiresInMs: int): int {
    var d := expiresInMs * (MILLISECOND / 100 * REFRESH_PERCENT);
    if d < MIN_WAIT then MIN_WAIT else d
  }

  lemma WrapFits(x: int)
    requires IsInt64(x)
    ensures Wrap64(x) == x
  {
  }

  lemma WrapShifts(x: int) returns (k: int)
    ensures Wrap64(x) == x - k * TWO_64 && IsInt64(Wrap64(x))
    ensures x >= TWO_63 ==> k >= 1
    ensures x >= 0 ==> k >= 0
  {
    k := (x + TWO_63) / TWO_64;
  }

  /** An overflow leaves less than the true product, by at least one full word. */
  lemma OverflowIsSmaller(ms: int)
    requires MAX_EXACT < ms < TWO_63
    ensures Wrap64(Wrap64(ms * MILLISECOND) * REFRESH_PERCENT) <= ms * MILLISECOND * REFRESH_PERCENT - TWO_64
  {
    var a := ms * MILLISECOND;
    var k := WrapShifts(a);
    var w := Wrap64(a);
    if w < 0 {
      var j := WrapShifts(w * REFRESH_PERCENT);
      assert k >= 1;
      assert IsInt64(Wrap64(w * REFRESH_PERCENT));
      assert Wrap64(w * REFRESH_PERCENT) < TWO_63;
      assert a >= TWO_63;
      assert a * REFRESH_PERCENT >= TWO_63 + TWO_64;
    } else {
      var j := WrapShifts(w * REFRESH_PERCENT);
      assert w * REFRESH_PERCENT == a * REFRESH_PERCENT - (80 * k) * TWO_64;
      if k == 0 {
        assert j >= 1;
      }
    }
  }

  /** For positive lifetimes the 64-bit arithmetic is exact up to the bound, and beyond it never. */
  lemma WaitIsExactIff(ms: int)
    requires 0 < ms < TWO_63
    ensures RefreshWait(ms) == ExactWait(ms) <==> ms <= MAX_EXACT
  {
    if ms <= MAX_EXACT {
      WrapFits(ms * MILLISECOND);
      WrapFits(ms * MILLISECOND * REFRESH_PERCENT);
    } else {
      OverflowIsSmaller(ms);
      var x := Wrap64(Wrap64(ms * MILLISECOND) * REFRESH_PERCENT);
      assert TruncDiv(x, 100) < ms * 800_000;
    }
  }

  /** Where it is exact, the token is refreshed before it expires exactly if it lives longer than the
      floor. */
  lemma WaitEndsInTimeIff(ms: int)
    requires 0 < ms <= MAX_EXACT
    ensures RefreshWait(ms) < ms * MILLISECOND <==> ms > 30_000
  {
  }

  // ---------------------------------------------------------------- the loop

  /** How a refresh request ends; `persists` says whether the keyring takes the new tokens. A success
      without an access token counts as a failure. */
  datatype Attempt = Failure | Success(access: string, refresh: string, expiresInMs: int, persists: bool)

  datatype Tokens = Tokens(access: string, refresh: string, expiresInMs: int)

  /** What a response changes: parts that it leaves out stay. */
  function Refreshed(t: Tokens, a: Attempt): Tokens {
    match a
    case Failure => t
    case Success(access, refresh, ms, _) =>
      Tokens(access, if refresh != "" then refresh else t.refresh, if ms > 0 then ms else t.expiresInMs)
  }

  function TokensAfter(t: Tokens, attempts: seq<Attempt>): Tokens {
    if attempts == [] then t else Refreshed(TokensAfter(t, attempts[..|attempts| - 1]), attempts[|attempts| - 1])
  }

  /** The tokens in the keyring: those of the last attempt that was persisted. */
  function KeyringAfter(t: Tokens, stored: Tokens, attempts: seq<Attempt>): Tokens {
    if attempts == [] then stored
    else
      var last := attempts[|attempts| - 1];
      if last.Success? && last.persists then TokensAfter(t, attempts) else KeyringAfter(t, stored, attempts[..|attempts| - 1])
  }

  /** The wait before the next attempt. */
  function WaitAfter(t: Tokens, attempts: seq<Attempt>): int {
    if attempts != [] && attempts[|attempts| - 1].Failure? then RETRY_DELAY else RefreshWait(TokensAfter(t, attempts).expiresInMs)
  }

  /** The refresh tokens a run sends, and the times it waits. */
  function Sent(t: Tokens, attempts: seq<Attempt>): seq<string> {
    if attempts == [] then []
    else var before := attempts[..|attempts| - 1]; Sent(t, before) + [TokensAfter(t, before).refresh]
  }

  function Waits(t: Tokens, attempts: seq<Attempt>): seq<int> {
    if attempts == [] then []
    else var before := attempts[..|attempts| - 1]; Waits(t, before) + [WaitAfter(t, before)]
  }

  /** Attempt `i` sends the token, and comes after the wait, that the attempts before it lead to: 30 seconds
      after a failure, and otherwise the wait for the lifetime in use. No wait is shorter than the floor. */
  lemma {:induction false} AttemptUsesLatest(t: Tokens, attempts: seq<Attempt>, i: nat)
    requires i < |attempts|
    ensures |Sent(t, attempts)| == |Waits(t, attempts)| == |attempts|
    ensures Sent(t, attempts)[i] == TokensAfter(t, attempts[..i]).refresh
    ensures Waits(t, attempts)[i] == WaitAfter(t, attempts[..i]) >= MIN_WAIT
    ensures Waits(t, attempts)[i] ==
      if i > 0 && attempts[i - 1].Failure? then 30_000_000_000 else RefreshWait(TokensAfter(t, attempts[..i]).expiresInMs)
    decreases |attempts|
  {
    var before := attempts[..|attempts| - 1];
    if before != [] {
      AttemptUsesLatest(t, before, if i < |before| then i else 0);
    }
    assert i < |before| ==> before[..i] == attempts[..i];
  }

  /** `i` is the last attempt that brought a refresh token. */
  predicate LastBringing(attempts: seq<Attempt>, i: int) {
    && 0 <= i < |attempts| && attempts[i].Success? && attempts[i].refresh != ""
    && forall j :: i < j < |attempts| ==> attempts[j].Failure? || attempts[j].refresh == ""
  }

  /** The refresh token in use is the one of the last response that brought one; the initial one
      before that. It is never empty if it was not at the start. */
  lemma {:induction false} LatestTokenIsUsed(t: Tokens, attempts: seq<Attempt>)
    ensures (exists i :: LastBringing(attempts, i) && TokensAfter(t, attempts).refresh == attempts[i].refresh)
            || (TokensAfter(t, attempts).refresh == t.refresh
                && forall j :: 0 <= j < |attempts| ==> attempts[j].Failure? || attempts[j].refresh == "")
    ensures t.refresh != "" ==> TokensAfter(t, attempts).refresh != ""
    ensures t.expiresInMs > 0 ==> TokensAfter(t, attempts).expiresInMs > 0
    decreases |attempts|
  {
    if attempts != [] {
      var n := |attempts| - 1;
      var before, last := attempts[..n], attempts[n];
      LatestTokenIsUsed(t, before);
      if last.Success? && last.refresh != "" {
        assert LastBringing(attempts, n);
      } else if i :| LastBringing(before, i) && TokensAfter(t, before).refresh == before[i].refresh {
        assert LastBringing(attempts, i);
      }
    }
  }

  /** `i` is the last success. */
  predicate LastSuccess(attempts: seq<Attempt>, i: int) {
    0 <= i < |attempts| && attempts[i].Success? && forall j :: i < j < |attempts| ==> attempts[j].Failure?
  }

  /** `i` is the last success that came with a lifetime. */
  predicate LastLifetime(attempts: seq<Attempt>, i: int) {
    && 0 <= i < |attempts| && attempts[i].Success? && attempts[i].expiresInMs > 0
    && forall j :: i < j < |attempts| ==> attempts[j].Failure? || attempts[j].expiresInMs <= 0
  }

  /** The access token in use is that of the last success, and the lifetime the last positive one. */
  lemma {:induction false} LatestAccessIsUsed(t: Tokens, attempts: seq<Attempt>)
    ensures var now := TokensAfter(t, attempts);
      && ((exists i :: LastSuccess(attempts, i) && now.access == attempts[i].access)
          || (now.access == t.access && forall j :: 0 <= j < |attempts| ==> attempts[j].Failure?))
      && ((exists i :: LastLifetime(attempts, i) && now.expiresInMs == attempts[i].expiresInMs)
          || (now.expiresInMs == t.expiresInMs
              && forall j :: 0 <= j < |attempts| ==> attempts[j].Failure? || attempts[j].expiresInMs <= 0))
    decreases |attempts|
  {
    if attempts != [] {
      var n := |attempts| - 1;
      var before, last := attempts[..n], attempts[n];
      LatestAccessIsUsed(t, before);
      if last.Success? {
        assert LastSuccess(attempts, n);
      } else if i :| LastSuccess(before, i) && TokensAfter(t, before).access == before[i].access {
        assert LastSuccess(attempts, i);
      }
      if last.Success? && last.expiresInMs > 0 {
        assert LastLifetime(attempts, n);
      } else if i :| LastLifetime(before, i) && TokensAfter(t, before).expiresInMs == before[i].expiresInMs {
        assert LastLifetime(attempts, i);
      }
    }
  }

  /** `i` is the last attempt whose tokens were persisted. */
  predicate LastPersisted(attempts: seq<Attempt>, i: int) {
    && 0 <= i < |attempts| && attempts[i].Success? && attempts[i].persists
    && forall j :: i < j < |attempts| ==> attempts[j].Failure? || !attempts[j].persists
  }

  /** The keyring holds what the loop worked with when something was last persisted, or what it held. */
  lemma {:induction false} KeyringIsLastPersisted(t: Tokens, stored: Tokens, attempts: seq<Attempt>)
    ensures (exists i :: LastPersisted(attempts, i) && KeyringAfter(t, stored, attempts) == TokensAfter(t, attempts[..i + 1]))
            || (KeyringAfter(t, stored, attempts) == stored
                && forall j :: 0 <= j < |attempts| ==> attempts[j].Failure? || !attempts[j].persists)
    decreases |attempts|
  {
    if attempts != [] {
      var n := |attempts| - 1;
      var before, last := attempts[..n], attempts[n];
      KeyringIsLastPersisted(t, stored, before);
      if last.Success? && last.persists {
        assert attempts[..n + 1] == attempts && LastPersisted(attempts, n);
      } else if i :| LastPersisted(before, i) && KeyringAfter(t, stored, before) == TokensAfter(t, before[..i + 1]) {
        assert before[..i + 1] == attempts[..i + 1] && LastPersisted(attempts, i);
      }
    }
  }

  predicate LastSuccessPersists(attempts: seq<Attempt>) {
    attempts != [] &&
    var last := attempts[|attempts| - 1];
    if last.Failure? then LastSuccessPersists(attempts[..|attempts| - 1]) else last.persists
  }

  /** A failed write is made good by the next successful one: once the last response has been
      persisted, the keyring holds what the loop works with, whatever was lost before. */
  lemma {:induction false} PersistedTokensMatch(t: Tokens, stored: Tokens, attempts: seq<Attempt>)
    requires LastSuccessPersists(attempts)
    ensures KeyringAfter(t, stored, attempts) == TokensAfter(t, attempts)
    decreases |attempts|
  {
    if attempts[|attempts| - 1].Failure? {
      PersistedTokensMatch(t, stored, attempts[..|attempts| - 1]);
    }
  }

  class Manager {
    var clientAccess: string      // the token that requests carry
    var session: Tokens           // the cached session object, edited in place
    var keyring: Tokens

    /** `session.Update` for a response. */
    method Persist(resp: Attempt) returns (ok: bool)
      requires resp.Success?
      modifies this`session, this`keyring
      ensures session == Refreshed(old(session), resp)
      ensures keyring == if resp.persists then session else old(keyring)
      ensures ok == resp.persists
    {
      session := session.(access := resp.access);
      if resp.refresh != "" {
        session := session.(refresh := resp.refresh);
      }
      if resp.expiresInMs > 0 {
        session := session.(expiresInMs := resp.expiresInMs);
      }
      ok := resp.persists;
      if ok {
        keyring := session;
      }
    }

    /** The part of the loop body that handles a successful response. */
    method TakeResponse(resp: Attempt, refresh: string, expires: int) returns (refreshToken: string, expiresInMs: int)
      requires resp.Success? && session.refresh == refresh && session.expiresInMs == expires
      modifies this
      ensures session == Refreshed(old(session), resp) && clientAccess == session.access
      ensures refreshToken == session.refresh && expiresInMs == session.expiresInMs
      ensures keyring == if resp.persists then session else old(keyring)
    {
      refreshToken, expiresInMs := refresh, expires;
      clientAccess := resp.access;
      if resp.refresh != "" {
        refreshToken := resp.refresh;
      }
      var _ := Persist(resp);
      if resp.expiresInMs > 0 {
        expiresInMs := resp.expiresInMs;
      }
    }

    /** The loop, for as many attempts as it makes before it is cancelled; it returns the refresh tokens
        it sent and the times it waited. */
    method TokenRefreshLoop(refresh: string, expires: int, attempts: seq<Attempt>) returns (sent: seq<string>, waits: seq<int>)
      requires session.refresh == refresh && session.expiresInMs == expires && clientAccess == session.access
      modifies this
      ensures sent == Sent(old(session), attempts) && waits == Waits(old(session), attempts)
      ensures session == TokensAfter(old(session), attempts) && clientAccess == session.access
      ensures keyring == KeyringAfter(old(session), old(keyring), attempts)
    {
      var refreshToken, expiresInMs := refresh, expires;
      var wait := RefreshWait(expiresInMs);
      sent, waits := [], [];
      ghost var t, stored := session, keyring;
      for i := 0 to |attempts|
        invariant sent == Sent(t, attempts[..i]) && waits == Waits(t, attempts[..i])
        invariant session == TokensAfter(t, attempts[..i]) && clientAccess == session.access
        invariant refreshToken == session.refresh && expiresInMs == session.expiresInMs
        invariant wait == WaitAfter(t, attempts[..i])
        invariant keyring == KeyringAfter(t, stored, attempts[..i])
      {
        assert attempts[..i + 1][..i] == attempts[..i];
        waits := waits + [wait];
        sent := sent + [refreshToken];
        var resp := attempts[i];
        if resp.Failure? {
          wait := RETRY_DELAY;
          continue;
        }
        refreshToken, expiresInMs := TakeResponse(resp, refreshToken, expiresInMs);
        wait := RefreshWait(expiresInMs);
      }
      assert attempts[..|attempts|] == attempts;
    }

    /** Runs the loop only for a session that can be refreshed. */
    method StartTokenRefresh(attempts: seq<Attempt>) returns (started: bool, sent: seq<string>)
      requires clientAccess == session.access
      modifies this
      ensures started <==> old(session).refresh != "" && old(session).expiresInMs > 0
      ensures started ==> |sent| == |attempts| && forall i :: 0 <= i < |sent| ==> sent[i] != ""
      ensures started ==> sent == Sent(old(session), attempts) && session == TokensAfter(old(session), attempts)
      ensures started ==> clientAccess == session.access && keyring == KeyringAfter(old(session), old(keyring), attempts)
      ensures !started ==> unchanged(this)
    {
      if session.refresh == "" || session.expiresInMs <= 0 {
        return false, [];
      }
      ghost var t := session;
      var waits;
      started := true;
      sent, waits := TokenRefreshLoop(session.refresh, session.expiresInMs, attempts);
      if attempts != [] {
        AttemptUsesLatest(t, attempts, 0);
      }
      forall i | 0 <= i < |attempts| ensures |sent| == |attempts| && sent[i] != "" {
        AttemptUsesLatest(t, attempts, i);
        LatestTokenIsUsed(t, attempts[..i]);
      }
    }
  }
}
