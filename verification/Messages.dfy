/** Messages of one room and the order in which the timeline keeps them. */
module Messages {

  /** A chat message. `id` is the DOM-safe identifier: the hash class of the event ID for a
      message known to the server, and a nonce for a placeholder. `ts` is the instant of the
      message, `author` the identifier of its author. */
  datatype Message = Message(
    id: string, ts: int, author: string, content: string, nonce: string,
    roomID: string, embeds: seq<string>, undecryptable: bool, redacted: bool)

  /** Identifiers of local sends and of events that are being decrypted. */
  predicate IsPlaceholder(id: string) {
    "pending-" <= id || "decrypting-" <= id
  }

  /** The message as a redaction leaves it: everything but the content is kept. */
  function RedactedFrom(original: Message, reason: string): Message {
    original.(content := reason, redacted := true)
  }

  /** Order of strings, character by character. */
  predicate LexLess(a: string, b: string) {
    |b| > 0 && (|a| == 0 || a[0] < b[0] || (a[0] == b[0] && LexLess(a[1..], b[1..])))
  }

  /** `byTimestamp`: instants first, identifiers where the instants are equal. */
  predicate Before(a: Message, b: Message) {
    if a.ts == b.ts then LexLess(a.id, b.id) else a.ts < b.ts
  }

  /** Two messages that a tree ordered by `Before` cannot hold side by side. */
  predicate SameKey(a: Message, b: Message) {
    a.ts == b.ts && a.id == b.id
  }

  lemma {:induction false} LexTotal(a: string, b: string)
    ensures LexLess(a, b) || LexLess(b, a) || a == b
    ensures !(LexLess(a, b) && LexLess(b, a))
    ensures !LexLess(a, a)
  {
    if |a| > 0 && |b| > 0 {
      LexTotal(a[1..], b[1..]);
      assert a == [a[0]] + a[1..] && b == [b[0]] + b[1..];
    }
    if |a| > 0 {
      LexTotal(a[1..], a[1..]);
    }
  }

  lemma {:induction false} LexTransitive(a: string, b: string, c: string)
    requires LexLess(a, b) && LexLess(b, c)
    ensures LexLess(a, c)
  {
    if |a| > 0 && a[0] == b[0] == c[0] {
      LexTransitive(a[1..], b[1..], c[1..]);
    }
  }

  /** The strings agree up to position `i`, and there the first ends or has the smaller character. */
  predicate FirstDifference(a: string, b: string, i: int) {
    0 <= i <= |a| && i < |b| && a[..i] == b[..i] && (i == |a| || a[i] < b[i])
  }

  /** The order of strings is that of their first difference. */
  lemma {:induction false} LexIsFirstDifference(a: string, b: string)
    ensures LexLess(a, b) <==> exists i :: FirstDifference(a, b, i)
  {
    forall i | FirstDifference(a, b, i) && i > 0 ensures |a| > 0 && |b| > 0 && a[0] == b[0] {
      SameStart(a, b, i);
    }
    if |a| > 0 && |b| > 0 && a[0] == b[0] {
      LexIsFirstDifference(a[1..], b[1..]);
      assert a == [a[0]] + a[1..] && b == [b[0]] + b[1..];
      if i :| FirstDifference(a[1..], b[1..], i) {
        assert a[..i + 1] == [a[0]] + a[1..][..i] && b[..i + 1] == [b[0]] + b[1..][..i];
        assert FirstDifference(a, b, i + 1);
      }
      if i :| FirstDifference(a, b, i) {
        assert i > 0 && a[1..][..i - 1] == a[..i][1..] && b[1..][..i - 1] == b[..i][1..];
        assert FirstDifference(a[1..], b[1..], i - 1);
      }
    } else if LexLess(a, b) {
      assert FirstDifference(a, b, 0);
    }
  }

  lemma SameStart(a: string, b: string, i: int)
    requires FirstDifference(a, b, i) && i > 0
    ensures a[0] == b[0]
  {
    assert a[..i][0] == b[..i][0];
  }

  /** The order of the timeline, written out: instants, and the first difference of identifiers. */
  lemma BeforeIff(a: Message, b: Message)
    ensures Before(a, b) <==> a.ts < b.ts || (a.ts == b.ts && exists i :: FirstDifference(a.id, b.id, i))
  {
    LexIsFirstDifference(a.id, b.id);
  }

  /** `Before` is a strict total order on keys, so the tree orders messages unambiguously. */
  lemma BeforeTotal(a: Message, b: Message)
    ensures Before(a, b) || Before(b, a) || SameKey(a, b)
    ensures !(Before(a, b) && Before(b, a))
    ensures SameKey(a, b) ==> !Before(a, b)
  {
    LexTotal(a.id, b.id);
  }

  lemma BeforeTransitive(a: Message, b: Message, c: Message)
    requires Before(a, b) && Before(b, c)
    ensures Before(a, c)
  {
    if a.ts == b.ts == c.ts {
      LexTransitive(a.id, b.id, c.id);
    }
  }
}
