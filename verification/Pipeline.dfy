/** From the timeline to a browser: sections of the timeline announce events, the callback broadcasts
    each to the room, a client takes them through its queue and patches the list it shows. */
module Pipeline {
  import opened Wrappers
  import opened Messages
  import opened Timeline
  import opened Runs
  import opened Mirror
  import opened MirroredSteps
  import opened Hub

  /** How the callback renders an event, and how a browser reads a frame: as a patch of the message
      list, or as something else. */
  datatype Codec = Codec(encode: TreeEvent -> string, decode: string -> Option<Patch>)

  ghost predicate Faithful(c: Codec) {
    forall e :: c.decode(c.encode(e)) == Some(PatchFor(e))
  }

  function PatchesIn(frames: seq<string>, c: Codec): seq<Patch> {
    if frames == [] then []
    else
      var rest := PatchesIn(frames[1..], c);
      match c.decode(frames[0])
      case Some(p) => [p] + rest
      case None => rest
  }

  function PatchesOf(events: seq<TreeEvent>): (r: seq<Patch>)
    ensures |r| == |events| && forall i :: 0 <= i < |events| ==> r[i] == PatchFor(events[i])
  {
    seq(|events|, i requires 0 <= i < |events| => PatchFor(events[i]))
  }

  function ApplyPatches(dom: Dom, patches: seq<Patch>): Dom
    decreases |patches|
  {
    if patches == [] then dom else ApplyPatches(Patched(dom, patches[0]), patches[1..])
  }

  // ---------------------------------------------------------------- a joint run

  /** One room, the channel of its listener, and a client. */
  datatype World = World(s: State, channel: seq<TreeEvent>, view: View)

  datatype Move =
    | Section(a: Action)                  // of any goroutine; its events enter the channel
    | Deliver(takes: bool)                // the callback broadcasts the oldest event
    | Elsewhere(op: Op, takes: bool)      // all else that the hub and the client do

  function After(w: World, move: Move, c: Codec): World {
    match move
    case Section(a) => w.(s := Act(w.s, a), channel := w.channel + Emit(w.s, a))
    case Deliver(takes) =>
      if w.channel == [] then w
      else
        w.(channel := w.channel[1..],
           view := Hub.Step(w.view, Broadcasts(w.s.room, c.encode(w.channel[0])), takes))
    case Elsewhere(op, takes) => w.(view := Hub.Step(w.view, op, takes))
  }

  function AfterAll(w: World, moves: seq<Move>, c: Codec): World
    decreases |moves|
  {
    if moves == [] then w else AfterAll(After(w, moves[0], c), moves[1..], c)
  }

  /** What the client relies on: sections are mirrored, it can take a frame when its room's event comes,
      it stays, and nothing but its room's events patches the list. */
  ghost predicate Good(w: World, move: Move, c: Codec, clock: Clock) {
    match move
    case Section(a) => ActionFits(a, clock) && Mirrored(w.s, a)
    case Deliver(_) => w.channel != [] ==> Open(w.view)
    case Elsewhere(op, _) =>
      && !op.Unregisters?
      && (op.SetsRoom? ==> op.room == w.s.room)
      && (Concerns(w.view, op) ==> c.decode(op.data) == None)
  }

  ghost predicate AllGood(w: World, moves: seq<Move>, c: Codec, clock: Clock)
    decreases |moves|
  {
    moves == [] || (Good(w, moves[0], c, clock) && AllGood(After(w, moves[0], c), moves[1..], c, clock))
  }

  /** What is still on its way to the client. */
  function Pending(w: World, c: Codec): seq<Patch> {
    PatchesIn(w.view.queue, c) + PatchesOf(w.channel)
  }

  /** The list of a client that showed `dom` when it had sent nothing. */
  function Shown(dom: Dom, w: World, c: Codec): Dom {
    ApplyPatches(dom, PatchesIn(w.view.sent, c))
  }

  ghost predicate Present(w: World) {
    w.view.registered && w.view.room == w.s.room
  }

  // ---------------------------------------------------------------- lists of patches

  lemma {:induction false} ApplyAppend(dom: Dom, p: seq<Patch>, q: seq<Patch>)
    ensures ApplyPatches(dom, p + q) == ApplyPatches(ApplyPatches(dom, p), q)
    decreases |p|
  {
    if p == [] {
      assert p + q == q;
    } else {
      assert (p + q)[1..] == p[1..] + q;
      ApplyAppend(Patched(dom, p[0]), p[1..], q);
    }
  }

  lemma {:induction false} PatchesInAppend(a: seq<string>, b: seq<string>, c: Codec)
    ensures PatchesIn(a + b, c) == PatchesIn(a, c) + PatchesIn(b, c)
  {
    if a == [] {
      assert a + b == b;
    } else {
      assert (a + b)[1..] == a[1..] + b;
      PatchesInAppend(a[1..], b, c);
    }
  }

  lemma {:induction false} ApplyIsPatchAll(dom: Dom, events: seq<TreeEvent>)
    ensures ApplyPatches(dom, PatchesOf(events)) == PatchAll(dom, events)
    decreases |events|
  {
    if events != [] {
      assert PatchesOf(events)[1..] == PatchesOf(events[1..]);
      ApplyIsPatchAll(Patched(dom, PatchFor(events[0])), events[1..]);
    }
  }

  /** The patches in the queue after a frame was offered. */
  lemma OfferedPatches(v: View, data: string, takes: bool, c: Codec)
    ensures var v' := Offered(v, data, takes);
      && v'.sent == v.sent
      && (c.decode(data) == None ==> PatchesIn(v'.queue, c) == PatchesIn(v.queue, c))
      && (c.decode(data).Some? && Open(v) ==> PatchesIn(v'.queue, c) == PatchesIn(v.queue, c) + [c.decode(data).value])
  {
    assert [data][1..] == [];
    PatchesInAppend(v.queue, [data], c);
  }

  // ---------------------------------------------------------------- one move

  lemma MorePatches(p: seq<Patch>, channel: seq<TreeEvent>, events: seq<TreeEvent>)
    ensures p + PatchesOf(channel + events) == (p + PatchesOf(channel)) + PatchesOf(events)
  {
    assert PatchesOf(channel + events) == PatchesOf(channel) + PatchesOf(events);
  }

  lemma SectionFollows(dom: Dom, w: World, a: Action, c: Codec, clock: Clock)
    requires Clocked(w.s, clock) && Good(w, Section(a), c, clock)
    requires ApplyPatches(Shown(dom, w, c), Pending(w, c)) == Ids(w.s.tree)
    ensures var w' := After(w, Section(a), c);
            ApplyPatches(Shown(dom, w', c), Pending(w', c)) == Ids(w'.s.tree)
  {
    var events := Emit(w.s, a);
    MorePatches(PatchesIn(w.view.queue, c), w.channel, events);
    ApplyAppend(Shown(dom, w, c), Pending(w, c), PatchesOf(events));
    ApplyIsPatchAll(Ids(w.s.tree), events);
    ActIsMirroredIff(w.s, a, clock);
  }

  lemma NextPatch(p: seq<Patch>, events: seq<TreeEvent>)
    requires events != []
    ensures (p + [PatchFor(events[0])]) + PatchesOf(events[1..]) == p + PatchesOf(events)
  {
  }

  /** A delivered event moves from the channel to the queue. */
  lemma DeliverFollows(w: World, takes: bool, c: Codec, clock: Clock)
    requires Faithful(c) && Present(w) && Good(w, Deliver(takes), c, clock)
    ensures var w' := After(w, Deliver(takes), c);
            Pending(w', c) == Pending(w, c) && w'.view.sent == w.view.sent && w'.s == w.s
  {
    if w.channel != [] {
      var e := w.channel[0];
      var frame := c.encode(e);
      OfferedPatches(w.view, frame, takes, c);
      NextPatch(PatchesIn(w.view.queue, c), w.channel);
      assert After(w, Deliver(takes), c) == w.(channel := w.channel[1..], view := Offered(w.view, frame, takes));
    }
  }

  /** What the client does by itself only moves patches from its queue to its list. */
  lemma ElsewhereFollows(dom: Dom, w: World, op: Op, takes: bool, c: Codec, clock: Clock)
    requires Good(w, Elsewhere(op, takes), c, clock)
    ensures var w' := After(w, Elsewhere(op, takes), c);
            ApplyPatches(Shown(dom, w', c), Pending(w', c)) == ApplyPatches(Shown(dom, w, c), Pending(w, c))
  {
    var v := w.view;
    if Concerns(v, op) {
      OfferedPatches(v, op.data, takes, c);
    } else if op.Pumps? && v.queue != [] {
      PumpFollows(dom, v.sent, v.queue, PatchesOf(w.channel), c);
    }
  }

  /** Patches can be applied with what came before them or with what comes after. */
  lemma ApplyMoves(dom: Dom, p: seq<Patch>, q: seq<Patch>, r: seq<Patch>, rest: seq<Patch>)
    ensures ApplyPatches(ApplyPatches(dom, p + q), r + rest) == ApplyPatches(ApplyPatches(dom, p), (q + r) + rest)
  {
    ApplyAppend(dom, p, q);
    ApplyAppend(ApplyPatches(dom, p), q, r + rest);
    assert (q + r) + rest == q + (r + rest);
  }

  lemma PumpFollows(dom: Dom, sent: seq<string>, queue: seq<string>, rest: seq<Patch>, c: Codec)
    requires queue != []
    ensures ApplyPatches(ApplyPatches(dom, PatchesIn(sent + [queue[0]], c)), PatchesIn(queue[1..], c) + rest)
         == ApplyPatches(ApplyPatches(dom, PatchesIn(sent, c)), PatchesIn(queue, c) + rest)
  {
    var head, tail := [queue[0]], queue[1..];
    assert queue == head + tail;
    PatchesInAppend(sent, head, c);
    PatchesInAppend(head, tail, c);
    ApplyMoves(dom, PatchesIn(sent, c), PatchesIn(head, c), PatchesIn(tail, c), rest);
  }

  lemma StaysPresent(w: World, move: Move, c: Codec, clock: Clock)
    requires Clocked(w.s, clock) && Present(w) && Good(w, move, c, clock)
    ensures Present(After(w, move, c)) && Clocked(After(w, move, c).s, clock)
  {
    if move.Section? {
      ClockedStep(w.s, move.a, clock);
      if move.a.DoSet? {
        SetTables(w.s, move.a.m);
      }
    }
  }

  /** The whole way: at any point of any run of the room's sections, the callback's broadcasts and
      whatever else the hub does, the list a client shows, patched with what is still in its queue and
      in the channel, is the list of the tree. */
  lemma {:induction false} ClientFollowsTree(dom: Dom, w: World, moves: seq<Move>, c: Codec, clock: Clock)
    requires Faithful(c) && Clocked(w.s, clock) && Present(w) && AllGood(w, moves, c, clock)
    requires ApplyPatches(Shown(dom, w, c), Pending(w, c)) == Ids(w.s.tree)
    ensures var f := AfterAll(w, moves, c);
            ApplyPatches(Shown(dom, f, c), Pending(f, c)) == Ids(f.s.tree)
    decreases |moves|
  {
    if moves != [] {
      match moves[0] {
        case Section(a) => SectionFollows(dom, w, a, c, clock);
        case Deliver(takes) => DeliverFollows(w, takes, c, clock);
        case Elsewhere(op, takes) => ElsewhereFollows(dom, w, op, takes, c, clock);
      }
      StaysPresent(w, moves[0], c, clock);
      ClientFollowsTree(dom, After(w, moves[0], c), moves[1..], c, clock);
    }
  }

  /** So a client that shows the tree when it enters the room shows it again whenever the channel and
      its queue are empty. */
  lemma ClientShowsTree(w: World, moves: seq<Move>, c: Codec, clock: Clock)
    requires Faithful(c) && Clocked(w.s, clock) && Present(w) && AllGood(w, moves, c, clock)
    requires w.channel == [] && w.view.queue == [] && w.view.sent == []
    ensures var f := AfterAll(w, moves, c);
            f.channel == [] && f.view.queue == [] ==> Shown(Ids(w.s.tree), f, c) == Ids(f.s.tree)
  {
    assert Pending(w, c) == [];
    ClientFollowsTree(Ids(w.s.tree), w, moves, c, clock);
    var f := AfterAll(w, moves, c);
    if f.channel == [] && f.view.queue == [] {
      assert Pending(f, c) == [];
    }
  }

  // ---------------------------------------------------------------- completed steps among the moves

  function Sections(p: seq<Action>): (r: seq<Move>)
    ensures |r| == |p| && forall i :: 0 <= i < |p| ==> r[i] == Section(p[i])
  {
    seq(|p|, i requires 0 <= i < |p| => Section(p[i]))
  }

  lemma {:induction false} SectionsAreGood(w: World, p: seq<Action>, c: Codec, clock: Clock)
    requires AllMirrored(w.s, p) && AllActionsFit(p, clock)
    ensures AllGood(w, Sections(p), c, clock) && AfterAll(w, Sections(p), c).s == ActAll(w.s, p)
    decreases |p|
  {
    if p != [] {
      assert Sections(p)[1..] == Sections(p[1..]);
      SectionsAreGood(After(w, Section(p[0]), c), p[1..], c, clock);
    }
  }

  /** A completed step that meets the mirror's condition on the tables meets the run's. */
  lemma StepIsGood(w: World, step: Runs.Step, c: Codec, clock: Clock)
    requires Inv(w.s, clock) && Fits(step, clock) && StepMirrors(w.s, step)
    ensures var moves := Sections(Program(w.s, step));
            AllGood(w, moves, c, clock) && AfterAll(w, moves, c).s == Do(w.s, step)
  {
    StepIsMirrored(w.s, step, clock);
    SectionsAreGood(w, Program(w.s, step), c, clock);
  }
}
