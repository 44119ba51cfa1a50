/** The B-tree of the timeline, seen as the strictly ascending sequence of its items. */
module SortedTree {
  import opened Wrappers
  import opened Messages

  type Tree = seq<Message>

  ghost predicate Sorted(t: Tree) {
    forall i, j :: 0 <= i < j < |t| ==> Before(t[i], t[j])
  }

  /** Position of the first item that is not before `m`. */
  function Seek(t: Tree, m: Message): (i: nat)
    ensures i <= |t|
  {
    if t == [] || !Before(t[0], m) then 0 else 1 + Seek(t[1..], m)
  }

  predicate Has(t: Tree, m: Message) {
    var i := Seek(t, m);
    i < |t| && SameKey(t[i], m)
  }

  /** Insert `m`, or replace the item that has its key. */
  function Put(t: Tree, m: Message): Tree {
    var i := Seek(t, m);
    if Has(t, m) then t[i := m] else t[..i] + [m] + t[i..]
  }

  /** Remove the item that has the key of `m`, if there is one. */
  function Drop(t: Tree, m: Message): Tree {
    var i := Seek(t, m);
    if Has(t, m) then t[..i] + t[i + 1..] else t
  }

  lemma {:induction false} SeekIsFirst(t: Tree, m: Message)
    ensures var i := Seek(t, m);
      && (forall j :: 0 <= j < i ==> Before(t[j], m))
      && (i < |t| ==> !Before(t[i], m))
  {
    if t != [] && Before(t[0], m) {
      SeekIsFirst(t[1..], m);
    }
  }

  lemma SeekSplits(t: Tree, m: Message)
    requires Sorted(t)
    ensures var i := Seek(t, m);
      && (forall j :: 0 <= j < i ==> Before(t[j], m))
      && (forall j :: i < j < |t| ==> Before(m, t[j]))
      && (i < |t| ==> SameKey(t[i], m) || Before(m, t[i]))
      && (forall j :: 0 <= j < |t| && SameKey(t[j], m) ==> j == i)
  {
    SeekIsFirst(t, m);
    var i := Seek(t, m);
    if i < |t| {
      BeforeTotal(t[i], m);
      forall j | i < j < |t| ensures Before(m, t[j]) && !SameKey(t[j], m) {
        if SameKey(t[i], m) {
          assert Before(t[i], t[j]);
        } else {
          BeforeTransitive(m, t[i], t[j]);
        }
        BeforeTotal(m, t[j]);
      }
    }
    forall j | 0 <= j < i ensures !SameKey(t[j], m) {
      BeforeTotal(t[j], m);
    }
  }

  lemma PutSorted(t: Tree, m: Message)
    requires Sorted(t)
    ensures Sorted(Put(t, m))
  {
    SeekSplits(t, m);
    var r := Put(t, m);
    if Has(t, m) {
      forall j, k | 0 <= j < k < |r| ensures Before(r[j], r[k]) {
        assert Before(t[j], t[k]);
      }
    }
  }

  /** What `Put` means: sortedness is kept, and exactly the items with the key of `m` give way to `m`. */
  lemma PutSpec(t: Tree, m: Message)
    requires Sorted(t)
    ensures Sorted(Put(t, m))
    ensures forall x :: x in Put(t, m) <==> x == m || (x in t && !SameKey(x, m))
  {
    PutSorted(t, m);
    SeekSplits(t, m);
    var i := Seek(t, m);
    var r := Put(t, m);
    assert r[i] == m;
    forall x | x in t && !SameKey(x, m) ensures x in r {
      var j :| 0 <= j < |t| && t[j] == x;
      assert r[if j < i || Has(t, m) then j else j + 1] == x;
    }
  }

  lemma HasSpec(t: Tree, m: Message)
    requires Sorted(t)
    ensures Has(t, m) <==> exists x :: x in t && SameKey(x, m)
  {
    SeekSplits(t, m);
  }

  lemma DropSpec(t: Tree, m: Message)
    requires Sorted(t)
    ensures Sorted(Drop(t, m))
    ensures forall x :: x in Drop(t, m) <==> x in t && !SameKey(x, m)
  {
    SeekSplits(t, m);
    var i := Seek(t, m);
    var r := Drop(t, m);
    if Has(t, m) {
      forall x | x in t && !SameKey(x, m) ensures x in r {
        var j :| 0 <= j < |t| && t[j] == x;
        assert r[if j < i then j else j - 1] == x;
      }
    }
  }

  /** Two trees with the same items are the same tree. */
  lemma {:induction false} SortedUnique(a: Tree, b: Tree)
    requires Sorted(a) && Sorted(b)
    requires forall x :: x in a <==> x in b
    ensures a == b
  {
    assert (a != [] ==> a[0] in a) && (b != [] ==> b[0] in b);
    if a != [] && b != [] {
      assert a[0] in b;
      assert b[0] in a;
      BeforeTotal(a[0], b[0]);
      assert a[0] == b[0];
      forall x ensures x in a[1..] <==> x in b[1..] {
        BeforeTotal(a[0], a[0]);
        assert x in a[1..] <==> x in a && x != a[0];
        assert x in b[1..] <==> x in b && x != b[0];
      }
      SortedUnique(a[1..], b[1..]);
      assert a == [a[0]] + a[1..] && b == [b[0]] + b[1..];
    }
  }

  /** A tree of one message, then of two, then with the later one replaced. */
  lemma TwoItems(a: Message, b: Message, w: Message)
    requires a.ts < b.ts && SameKey(b, w)
    ensures Put([], a) == [a] && Put([a], b) == [a, b] && Put([a, b], w) == [a, w]
    ensures !Has([a], b) && Seek([a, b], w) == 1 && Seek([a, b], b) == 1
  {
    SeekSecond(a, b, b);
    SeekSecond(a, b, w);
    assert [a][..1] + [b] + [a][1..] == [a, b];
    assert [a, b][1 := w] == [a, w];
  }

  lemma SeekSecond(a: Message, b: Message, w: Message)
    requires a.ts < b.ts && SameKey(b, w)
    ensures Seek([a], w) == 1 && !Has([a], w) && Seek([a, b], w) == 1 && Has([a, b], w)
  {
    BeforeTotal(b, w);
    assert [a][1..] == [] && [a, b][1..] == [b];
    assert Seek([b], w) == 0;
  }

  /** The items next to `m`, as the tree iterator finds them: nothing when every item is below `m`. */
  datatype Neighbors = Neighbors(prev: Option<Message>, next: Option<Message>)

  function NeighborsOf(t: Tree, m: Message): Neighbors {
    var i := Seek(t, m);
    if i == |t| then Neighbors(None, None)
    else Neighbors(
      if i > 0 then Some(t[i - 1]) else None,
      if i + 1 < |t| then Some(t[i + 1]) else None)
  }

  /** For an item of the tree the neighbours are the greatest item below it and the least item above it. */
  lemma NeighborsAreClosest(t: Tree, m: Message)
    requires Sorted(t) && Has(t, m)
    ensures var n := NeighborsOf(t, m);
      && (match n.prev
          case None => forall x :: x in t ==> !Before(x, m)
          case Some(p) => p in t && Before(p, m) && forall x :: x in t && Before(x, m) ==> SameKey(x, p) || Before(x, p))
      && (match n.next
          case None => forall x :: x in t ==> !Before(m, x)
          case Some(q) => q in t && Before(m, q) && forall x :: x in t && Before(m, x) ==> SameKey(x, q) || Before(q, x))
  {
    SeekSplits(t, m);
    var i := Seek(t, m);
    forall x | x in t
      ensures Before(x, m) <==> exists j :: 0 <= j < i && t[j] == x
      ensures Before(m, x) <==> exists j :: i < j < |t| && t[j] == x
    {
      var j :| 0 <= j < |t| && t[j] == x;
      BeforeTotal(x, m);
      if j == i { BeforeTotal(t[i], m); }
    }
  }
}
