/** Loading history backwards, page by page, from a server whose history may grow at its end. */
module Pagination {
  import opened Wrappers

  datatype Pager = Pager(prevBatch: string, noMoreHistory: bool)

  datatype Response<+E> = Failed | Chunk(events: seq<E>, end: string)

  const START := Pager("", false)

  /** The bookkeeping of `LoadNextMessages` and `populateTree`. */
  function Load<E>(p: Pager, r: Response<E>): Pager {
    if p.noMoreHistory || r.Failed? then p
    else Pager(r.end, r.end == "" || r.end == p.prevBatch)
  }

  /** The events a call adds. */
  function Added<E>(p: Pager, r: Response<E>): seq<E> {
    if p.noMoreHistory || r.Failed? then [] else r.events
  }

  // ---------------------------------------------------------------- the server

  /** Which position of the history a token stands for: the events before it are still to come. */
  type Positions = string -> nat

  function From<E>(p: Pager, history: seq<E>, pos: Positions): nat {
    if p.prevBatch == "" then |history| else pos(p.prevBatch)
  }

  /** A server's answer to a request from the pager's token (no token: from the newest event): the
      events before that point, newest first, and a token for the point reached. It leaves the token
      out only at the start of the history. */
  ghost predicate Answers<E>(p: Pager, r: Response<E>, history: seq<E>, pos: Positions) {
    !p.noMoreHistory && r.Chunk? ==>
      var start := From(p, history, pos);
      && |r.events| <= start <= |history|
      && r.events == Reversed(history[start - |r.events|..start])
      && (r.end == "" ==> |r.events| == start)
      && (r.end != "" ==> pos(r.end) == start - |r.events|)
  }

  /** A page that is neither empty nor the last. */
  predicate Progresses<E>(p: Pager, r: Response<E>) {
    r.Chunk? && r.end != "" && r.end != p.prevBatch ==> r.events != []
  }

  /** One call of `LoadNextMessages`, with the history the server had at that time. */
  datatype Call<+E> = Call(history: seq<E>, response: Response<E>)

  ghost predicate Served<E>(p: Pager, calls: seq<Call<E>>, pos: Positions)
    decreases |calls|
  {
    calls == [] ||
    (Answers(p, calls[0].response, calls[0].history, pos) && Served(Load(p, calls[0].response), calls[1..], pos))
  }

  /** Histories only grow, at their end. */
  ghost predicate Growing<E>(calls: seq<Call<E>>) {
    forall i, j :: 0 <= i <= j < |calls| ==> calls[i].history <= calls[j].history
  }

  function LoadAll<E>(p: Pager, calls: seq<Call<E>>): Pager
    decreases |calls|
  {
    if calls == [] then p else LoadAll(Load(p, calls[0].response), calls[1..])
  }

  /** Everything the calls added, in order. */
  function Loaded<E>(p: Pager, calls: seq<Call<E>>): seq<E>
    decreases |calls|
  {
    if calls == [] then [] else Added(p, calls[0].response) + Loaded(Load(p, calls[0].response), calls[1..])
  }

  // ---------------------------------------------------------------- what is loaded

  /** The pager stands at position `q` of the history. */
  ghost predicate StandsAt(p: Pager, q: nat, pos: Positions) {
    && (!p.noMoreHistory ==> p.prevBatch != "" && pos(p.prevBatch) == q)
    && (p.prevBatch == "" ==> q == 0)
  }

  lemma Adjacent<E>(h: seq<E>, a: nat, b: nat, c: nat)
    requires a <= b <= c <= |h|
    ensures Reversed(h[b..c]) + Reversed(h[a..b]) == Reversed(h[a..c])
  {
  }

  /** The segment of the history before position `q` that further calls add is adjacent to `q`. */
  lemma {:induction false} LoadedBelow<E>(p: Pager, calls: seq<Call<E>>, q: nat, pos: Positions, h: seq<E>) returns (q': nat)
    requires StandsAt(p, q, pos) && q <= |h|
    requires Served(p, calls, pos) && forall i :: 0 <= i < |calls| ==> h <= calls[i].history
    ensures q' <= q && Loaded(p, calls) == Reversed(h[q'..q])
    ensures StandsAt(LoadAll(p, calls), q', pos)
    decreases |calls|
  {
    if calls == [] {
      q' := q;
    } else {
      var r := calls[0].response;
      if p.noMoreHistory {
        EndIsPermanent(p, calls);
        q' := q;
      } else if r.Failed? {
        q' := LoadedBelow(p, calls[1..], q, pos, h);
      } else {
        var q1 := q - |r.events|;
        assert r.events == Reversed(h[q1..q]);
        q' := LoadedBelow(Load(p, r), calls[1..], q1, pos, h);
        Adjacent(h, q', q1, q);
      }
    }
  }

  /** The history as the first successful fetch saw it. */
  function Top<E>(calls: seq<Call<E>>): seq<E> {
    if calls == [] then [] else if calls[0].response.Failed? then Top(calls[1..]) else calls[0].history
  }

  lemma GrowingTail<E>(calls: seq<Call<E>>)
    requires Growing(calls) && calls != []
    ensures Growing(calls[1..])
    ensures forall i :: 0 <= i < |calls[1..]| ==> calls[0].history <= calls[1..][i].history
  {
  }

  // ---------------------------------------------------------------- when the end flag goes up

  /** The token of the next request: the end of the last successful answer. */
  function RequestToken<E>(calls: seq<Call<E>>): string {
    if calls == [] then ""
    else
      var last := calls[|calls| - 1].response;
      if last.Chunk? then last.end else RequestToken(calls[..|calls| - 1])
  }

  /** The answer of call `i` has no token, or the one of its own request. */
  predicate IsFinal<E>(calls: seq<Call<E>>, i: int) {
    && 0 <= i < |calls| && calls[i].response.Chunk?
    && (calls[i].response.end == "" || calls[i].response.end == RequestToken(calls[..i]))
  }

  /** The server repeated the token of the request, on an empty page. */
  predicate RepeatsToken<E>(calls: seq<Call<E>>, i: int) {
    && IsFinal(calls, i) && calls[i].response.end != "" && calls[i].response.events == []
  }

  lemma {:induction false} LoadMore<E>(p: Pager, calls: seq<Call<E>>, c: Call<E>)
    ensures LoadAll(p, calls + [c]) == Load(LoadAll(p, calls), c.response)
    decreases |calls|
  {
    if calls == [] {
      assert [] + [c] == [c];
    } else {
      assert (calls + [c])[1..] == calls[1..] + [c];
      LoadMore(Load(p, calls[0].response), calls[1..], c);
    }
  }

  lemma {:induction false} ServedMore<E>(p: Pager, calls: seq<Call<E>>, c: Call<E>, pos: Positions)
    requires Served(p, calls + [c], pos)
    ensures Served(p, calls, pos) && Answers(LoadAll(p, calls), c.response, c.history, pos)
    decreases |calls|
  {
    if calls == [] {
      assert ([] + [c])[0] == c;
    } else {
      assert (calls + [c])[1..] == calls[1..] + [c];
      ServedMore(Load(p, calls[0].response), calls[1..], c, pos);
    }
  }

  lemma FinalMore<E>(front: seq<Call<E>>, c: Call<E>, i: nat)
    requires i < |front|
    ensures IsFinal(front + [c], i) <==> IsFinal(front, i)
    ensures RepeatsToken(front + [c], i) <==> RepeatsToken(front, i)
  {
    assert (front + [c])[..i] == front[..i];
  }

  /** Exactly: over any calls the end flag is up if and only if some successful answer had no token or the
      token of its own request; until then the pager stands at the token of the next request. */
  lemma {:induction false} FlagUpIff<E>(calls: seq<Call<E>>)
    ensures LoadAll(START, calls).noMoreHistory <==> exists i :: IsFinal(calls, i)
    ensures !LoadAll(START, calls).noMoreHistory ==> LoadAll(START, calls).prevBatch == RequestToken(calls)
    decreases |calls|
  {
    if calls != [] {
      var n := |calls| - 1;
      var front, c := calls[..n], calls[n];
      assert calls == front + [c];
      FlagUpIff(front);
      LoadMore(START, front, c);
      forall i | 0 <= i < n ensures IsFinal(calls, i) <==> IsFinal(front, i) {
        FinalMore(front, c, i);
      }
      if i :| IsFinal(front, i) {
        assert IsFinal(calls, i);
      } else {
        assert IsFinal(calls, n) <==> c.response.Chunk? && (c.response.end == "" || c.response.end == RequestToken(front));
      }
    }
  }

  /** With an honest server a flag that is up with a token still kept comes from a repeated token. */
  lemma {:induction false} FlagCause<E>(calls: seq<Call<E>>, pos: Positions)
    requires Served(START, calls, pos)
    requires LoadAll(START, calls).noMoreHistory && LoadAll(START, calls).prevBatch != ""
    ensures exists i :: RepeatsToken(calls, i)
    decreases |calls|
  {
    var n := |calls| - 1;
    var front, c := calls[..n], calls[n];
    assert calls == front + [c];
    LoadMore(START, front, c);
    ServedMore(START, front, c, pos);
    if LoadAll(START, front).noMoreHistory {
      FlagCause(front, pos);
      var i :| RepeatsToken(front, i);
      FinalMore(front, c, i);
      assert RepeatsToken(calls, i);
    } else {
      FlagUpIff(front);
      assert RepeatsToken(calls, n);
    }
  }

  /** Whatever the calls and their failures, the loaded events are a gap-free run of the history that
      ends at the newest event of the first successful fetch; later fetches continue from where the
      last one stopped, never from the top; and when the end flag is up nothing is missing, unless the
      server repeated a token on an empty page. */
  lemma LoadedIsSuffix<E>(calls: seq<Call<E>>, pos: Positions) returns (q: nat)
    requires Served(START, calls, pos) && Growing(calls)
    ensures q <= |Top(calls)| && Loaded(START, calls) == Reversed(Top(calls)[q..])
    ensures LoadAll(START, calls) == START || StandsAt(LoadAll(START, calls), q, pos)
    ensures LoadAll(START, calls).noMoreHistory ==> q == 0 || exists i :: RepeatsToken(calls, i)
  {
    q := LoadedRun(calls, pos);
    if LoadAll(START, calls).noMoreHistory && LoadAll(START, calls).prevBatch != "" {
      FlagCause(calls, pos);
    }
  }

  lemma {:induction false} LoadedRun<E>(calls: seq<Call<E>>, pos: Positions) returns (q: nat)
    requires Served(START, calls, pos) && Growing(calls)
    ensures q <= |Top(calls)| && Loaded(START, calls) == Reversed(Top(calls)[q..])
    ensures LoadAll(START, calls) == START || StandsAt(LoadAll(START, calls), q, pos)
    decreases |calls|
  {
    if calls == [] {
      q := 0;
    } else {
      GrowingTail(calls);
      var top, r := calls[0].history, calls[0].response;
      if r.Failed? {
        q := LoadedRun(calls[1..], pos);
      } else {
        var q1 := |top| - |r.events|;
        q := LoadedBelow(Load(START, r), calls[1..], q1, pos, top);
        Adjacent(top, q, q1, |top|);
        assert top[q..|top|] == top[q..];
      }
    }
  }

  // ---------------------------------------------------------------- the end of the history

  /** `noMoreHistory` is permanent, and then nothing more is loaded. */
  lemma {:induction false} EndIsPermanent<E>(p: Pager, calls: seq<Call<E>>)
    requires p.noMoreHistory
    ensures LoadAll(p, calls) == p && Loaded(p, calls) == []
    decreases |calls|
  {
    if calls != [] {
      EndIsPermanent(p, calls[1..]);
    }
  }

  ghost predicate AllProgress<E>(p: Pager, calls: seq<Call<E>>)
    decreases |calls|
  {
    calls == [] || (Progresses(p, calls[0].response) && AllProgress(Load(p, calls[0].response), calls[1..]))
  }

  function Successes<E>(calls: seq<Call<E>>): nat {
    if calls == [] then 0 else (if calls[0].response.Chunk? then 1 else 0) + Successes(calls[1..])
  }

  /** The history before position `q` is a termination measure: `q + 1` successful calls end it. */
  lemma {:induction false} EndsBelow<E>(p: Pager, calls: seq<Call<E>>, q: nat, pos: Positions)
    requires StandsAt(p, q, pos) && Served(p, calls, pos) && AllProgress(p, calls)
    requires Successes(calls) > q
    ensures LoadAll(p, calls).noMoreHistory
    decreases |calls|
  {
    var p1 := Load(p, calls[0].response);
    if p1.noMoreHistory {
      EndIsPermanent(p1, calls[1..]);
    } else {
      EndsBelow(p1, calls[1..], pos(p1.prevBatch), pos);
    }
  }

  /** As long as pages progress, more successful calls than the history had events at the first of
      them reach the end of the history. */
  lemma {:induction false} LoadingTerminates<E>(calls: seq<Call<E>>, n: nat, pos: Positions)
    requires Served(START, calls, pos) && AllProgress(START, calls)
    requires forall i :: 0 <= i < |calls| ==> |calls[i].history| <= n
    requires Successes(calls) > n
    ensures LoadAll(START, calls).noMoreHistory
    decreases |calls|
  {
    var r := calls[0].response;
    var p1 := Load(START, r);
    if r.Failed? {
      LoadingTerminates(calls[1..], n, pos);
    } else if p1.noMoreHistory {
      EndIsPermanent(p1, calls[1..]);
    } else {
      EndsBelow(p1, calls[1..], pos(p1.prevBatch), pos);
    }
  }
}
