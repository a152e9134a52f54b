/**
 The nesting cap loses nothing: whatever the cap, a well-nested document keeps
 the same leaves in the same order, no deeper than the cap.
 */
module NestingResults {
  import opened Basics
  import opened Wrappers
  import opened Texts
  import opened Nesting

  // ─── Leaves ─────────────────────────────────────────────────────────────

  datatype Leaf = TextLeaf(text: string) | CodeLeaf(code: string) | RuleLeaf

  function NodeLeaves(n: Node): seq<Leaf> {
    match n
    case Text(text) => [TextLeaf(text)]
    case Code(code) => [CodeLeaf(code)]
    case Rule => [RuleLeaf]
    case QuoteNode(nodes) => Leaves(nodes)
    case ListNode(_, items) => ItemLeaves(items)
  }

  /** The leaves of the nodes, in order. */
  function Leaves(nodes: seq<Node>): seq<Leaf> {
    if nodes == [] then [] else Leaves(nodes[..|nodes| - 1]) + NodeLeaves(nodes[|nodes| - 1])
  }

  function ItemLeaves(items: seq<Entry>): seq<Leaf> {
    if items == [] then [] else ItemLeaves(items[..|items| - 1]) + Leaves(items[|items| - 1].nodes)
  }

  function FrameLeaves(f: Frame): seq<Leaf> {
    match f
    case Root(nodes) => Leaves(nodes)
    case Quote(nodes) => Leaves(nodes)
    case Item(nodes) => Leaves(nodes)
    case List(_, items) => ItemLeaves(items)
  }

  function AllLeaves(frames: seq<Frame>): seq<Leaf> {
    if frames == [] then [] else AllLeaves(Front(frames)) + FrameLeaves(Last(frames))
  }

  lemma LeavesMore(nodes: seq<Node>, n: Node)
    ensures Leaves(nodes + [n]) == Leaves(nodes) + NodeLeaves(n)
  {
    assert (nodes + [n])[..|nodes|] == nodes;
  }

  lemma ItemLeavesMore(items: seq<Entry>, item: Entry)
    ensures ItemLeaves(items + [item]) == ItemLeaves(items) + Leaves(item.nodes)
  {
    assert (items + [item])[..|items|] == items;
  }

  lemma OneEntryLeaves(n: Node)
    ensures ItemLeaves([Entry([n])]) == NodeLeaves(n)
  {
    LeavesMore([], n);
    ItemLeavesMore([], Entry([n]));
    assert [] + [n] == [n] && [] + [Entry([n])] == [Entry([n])];
  }

  lemma LastEntryLeaves(items: seq<Entry>, n: Node)
    requires items != []
    ensures ItemLeaves(items[..|items| - 1] + [Entry(items[|items| - 1].nodes + [n])]) == ItemLeaves(items) + NodeLeaves(n)
  {
    var front, last := items[..|items| - 1], items[|items| - 1].nodes;
    LeavesMore(last, n);
    ItemLeavesMore(front, Entry(last + [n]));
    assert ItemLeaves(front) + (Leaves(last) + NodeLeaves(n)) == ItemLeaves(front) + Leaves(last) + NodeLeaves(n);
  }

  lemma IntoLeaves(f: Frame, n: Node)
    ensures FrameLeaves(Into(f, n)) == FrameLeaves(f) + NodeLeaves(n)
  {
    match f
    case Root(nodes) => LeavesMore(nodes, n);
    case Quote(nodes) => LeavesMore(nodes, n);
    case Item(nodes) => LeavesMore(nodes, n);
    case List(_, items) =>
      if items == [] {
        OneEntryLeaves(n);
      } else {
        LastEntryLeaves(items, n);
      }
  }

  /** A node pushed comes after every leaf there is. */
  lemma PushLeaves(frames: seq<Frame>, n: Node)
    ensures AllLeaves(Push(frames, n)) == AllLeaves(frames) + NodeLeaves(n)
  {
    if frames == [] {
      LeavesMore([], n);
      assert [] + [n] == [n];
      assert Front([Root([n])]) == [];
    } else {
      IntoLeaves(Last(frames), n);
      assert Front(Push(frames, n)) == Front(frames);
    }
  }

  lemma {:induction false} PushAllLeaves(frames: seq<Frame>, nodes: seq<Node>)
    ensures AllLeaves(PushAll(frames, nodes)) == AllLeaves(frames) + Leaves(nodes)
  {
    if nodes != [] {
      PushAllLeaves(frames, nodes[..|nodes| - 1]);
      PushLeaves(PushAll(frames, nodes[..|nodes| - 1]), nodes[|nodes| - 1]);
    }
  }

  lemma FramesMore(frames: seq<Frame>, f: Frame)
    ensures AllLeaves(frames + [f]) == AllLeaves(frames) + FrameLeaves(f)
  {
    assert Front(frames + [f]) == frames;
  }

  /** Closing whatever is open keeps every leaf. */
  lemma {:induction false} UnwoundLeaves(frames: seq<Frame>)
    requires frames != [] && frames[0].Root?
    ensures Leaves(Unwound(frames)) == AllLeaves(frames)
    decreases |frames|
  {
    if |frames| == 1 {
      assert Front(frames) == [];
    } else {
      var rest := Front(frames);
      match Last(frames)
      case Quote(nodes) => PushLeaves(rest, QuoteNode(nodes)); UnwoundLeaves(Push(rest, QuoteNode(nodes)));
      case List(start, items) => PushLeaves(rest, ListNode(start, items)); UnwoundLeaves(Push(rest, ListNode(start, items)));
      case Item(nodes) =>
        PushAllSize(rest, nodes);
        PushAllRoot(rest, nodes);
        PushAllLeaves(rest, nodes);
        UnwoundLeaves(PushAll(rest, nodes));
      case Root(nodes) =>
        PushAllSize(rest, nodes);
        PushAllRoot(rest, nodes);
        PushAllLeaves(rest, nodes);
        UnwoundLeaves(PushAll(rest, nodes));
    }
  }

  lemma {:induction false} PushAllRoot(frames: seq<Frame>, nodes: seq<Node>)
    requires frames != [] && frames[0].Root?
    ensures PushAll(frames, nodes) != [] && PushAll(frames, nodes)[0].Root?
  {
    if nodes != [] {
      PushAllRoot(frames, nodes[..|nodes| - 1]);
    }
  }

  // ─── What the events emit, nesting aside ────────────────────────────────

  /** The leaves so far, and the text and code being written. */
  datatype Pen = Pen(leaves: seq<Leaf>, inline: Option<string>, code: Option<string>)

  function PenFlushed(p: Pen): Pen {
    if p.inline.None? then p
    else p.(inline := None, leaves := if p.inline.value == "" then p.leaves else p.leaves + [TextLeaf(p.inline.value)])
  }

  function PenStep(p: Pen, e: Event): Pen {
    if p.code.Some? then
      match e
      case Written(text) => p.(code := Some(p.code.value + text))
      case EndCode =>
        var code := TrimBreaks(p.code.value);
        p.(code := None, leaves := if IsBlank(code) then p.leaves else p.leaves + [CodeLeaf(code)])
      case _ => p
    else
      match e
      case Written(text) => p.(inline := Some((if p.inline.Some? then p.inline.value else "") + text))
      case BreakRule => var q := PenFlushed(p); q.(leaves := q.leaves + [RuleLeaf])
      case TableText(text) => var q := PenFlushed(p); q.(leaves := if IsBlank(text) then q.leaves else q.leaves + [CodeLeaf(text)])
      case StartParagraph => PenFlushed(p).(inline := Some(""))
      case StartCode => PenFlushed(p).(code := Some(""))
      case EndCode => p
      case _ => PenFlushed(p)
  }

  function PenOf(events: seq<Event>): Pen {
    if events == [] then Pen([], None, None) else PenStep(PenOf(Front(events)), Last(events))
  }

  // ─── Nesting ────────────────────────────────────────────────────────────

  datatype Tag = Q | L | I

  /** The tags open after the events, if every end met the start it ends. */
  function Open(events: seq<Event>): Option<seq<Tag>> {
    if events == [] then Some([]) else
      var open := Open(Front(events));
      if open.None? then None
      else if PenOf(Front(events)).code.Some? then open
      else
        match Last(events)
        case StartQuote => Some(open.value + [Q])
        case StartList(_) => Some(open.value + [L])
        case StartItem => Some(open.value + [I])
        case EndQuote => Popped(open.value, Q)
        case EndList => Popped(open.value, L)
        case EndItem => Popped(open.value, I)
        case _ => open
  }

  function Popped(open: seq<Tag>, tag: Tag): Option<seq<Tag>> {
    if open != [] && Last(open) == tag then Some(Front(open)) else None
  }

  /** Every quote, list and item ends after it starts, the innermost first. */
  ghost predicate WellNested(events: seq<Event>) { Open(events).Some? }

  predicate IsFrameOf(tag: Tag, f: Frame) {
    match tag
    case Q => f.Quote?
    case L => f.List?
    case I => f.Item?
  }

  /** The frames above the root are those of the open tags that have one: every
      item, and the quotes and lists that were kept. */
  ghost predicate Aligned(open: seq<Tag>, containers: seq<bool>, frames: seq<Frame>) {
    if open == [] then containers == [] && |frames| == 1 && frames[0].Root?
    else if Last(open) == I then |frames| > 1 && IsFrameOf(I, Last(frames)) && Aligned(Front(open), containers, Front(frames))
    else
      && containers != []
      && if Last(containers) then |frames| > 1 && IsFrameOf(Last(open), Last(frames)) && Aligned(Front(open), Front(containers), Front(frames))
         else Aligned(Front(open), Front(containers), frames)
  }

  function Trues(bs: seq<bool>): nat {
    if bs == [] then 0 else Trues(Front(bs)) + if Last(bs) then 1 else 0
  }

  /** The kinds of the frames stay as they are when a node is pushed. */
  lemma {:induction false} PushAligned(open: seq<Tag>, containers: seq<bool>, frames: seq<Frame>, n: Node)
    requires Aligned(open, containers, frames)
    ensures frames != [] && frames[0].Root? && Aligned(open, containers, Push(frames, n))
    decreases |open|
  {
    var pushed := Push(frames, n);
    if open != [] && (Last(open) == I || Last(containers)) {
      assert Front(pushed) == Front(frames);
      RootFirst(Front(open), if Last(open) == I then containers else Front(containers), Front(frames));
    } else if open != [] {
      PushAligned(Front(open), Front(containers), frames, n);
    }
  }

  lemma {:induction false} RootFirst(open: seq<Tag>, containers: seq<bool>, frames: seq<Frame>)
    requires Aligned(open, containers, frames)
    ensures frames != [] && frames[0].Root?
    decreases |open|
  {
    if open != [] {
      if Last(open) == I {
        RootFirst(Front(open), containers, Front(frames));
      } else {
        RootFirst(Front(open), Front(containers), if Last(containers) then Front(frames) else frames);
      }
    }
  }

  lemma {:induction false} PushAllAligned(open: seq<Tag>, containers: seq<bool>, frames: seq<Frame>, nodes: seq<Node>)
    requires Aligned(open, containers, frames)
    ensures Aligned(open, containers, PushAll(frames, nodes))
  {
    if nodes != [] {
      PushAllAligned(open, containers, frames, Front(nodes));
      PushAligned(open, containers, PushAll(frames, Front(nodes)), Last(nodes));
    }
  }

  // ─── What every event keeps ─────────────────────────────────────────────

  ghost predicate Sound(b: Build, open: seq<Tag>, p: Pen, cap: nat) {
    && Aligned(open, b.containers, b.frames) && b.kept == Trues(b.containers) <= cap
    && AllLeaves(b.frames) == p.leaves && b.inline == p.inline && b.code == p.code
  }

  lemma FlushSound(b: Build, open: seq<Tag>, p: Pen, cap: nat)
    requires Sound(b, open, p, cap)
    ensures Sound(Flushed(b), open, PenFlushed(p), cap)
  {
    if b.inline.Some? && b.inline.value != "" {
      var n := Text(b.inline.value);
      PushLeaves(b.frames, n);
      PushAligned(open, b.containers, b.frames, n);
    }
  }

  lemma PushSound(b: Build, open: seq<Tag>, p: Pen, cap: nat, n: Node, leaf: Leaf)
    requires Sound(b, open, p, cap) && NodeLeaves(n) == [leaf]
    ensures Sound(b.(frames := Push(b.frames, n)), open, p.(leaves := p.leaves + [leaf]), cap)
  {
    PushLeaves(b.frames, n);
    PushAligned(open, b.containers, b.frames, n);
  }

  lemma OpenSound(b: Build, open: seq<Tag>, p: Pen, cap: nat, tag: Tag, frame: Frame)
    requires Sound(b, open, p, cap) && tag != I && IsFrameOf(tag, frame) && FrameLeaves(frame) == []
    ensures Sound(Opened(b, frame, cap), open + [tag], p, cap)
  {
    var t := Opened(b, frame, cap);
    assert Front(open + [tag]) == open && Last(open + [tag]) == tag;
    assert Front(t.containers) == b.containers;
    RootFirst(open, b.containers, b.frames);
    if Last(t.containers) {
      FramesMore(b.frames, frame);
      assert Front(t.frames) == b.frames;
    }
  }

  /** An end pops its own frame, if it had one, and loses no leaf. */
  lemma QuoteSound(b: Build, open: seq<Tag>, p: Pen, cap: nat)
    requires Sound(b, open, p, cap) && open != [] && Last(open) == Q
    ensures Sound(QuoteClosed(b), Front(open), p, cap)
    ensures Keeps(b) ==> Last(b.frames).Quote?
  {
    if Keeps(b) {
      var n := QuoteNode(Last(b.frames).nodes);
      PushLeaves(Front(b.frames), n);
      PushAligned(Front(open), Front(b.containers), Front(b.frames), n);
    }
  }

  lemma ListSound(b: Build, open: seq<Tag>, p: Pen, cap: nat)
    requires Sound(b, open, p, cap) && open != [] && Last(open) == L
    ensures Sound(ListClosed(b), Front(open), p, cap)
    ensures Keeps(b) ==> Last(b.frames).List?
  {
    if Keeps(b) {
      var n := ListNode(Last(b.frames).start, Last(b.frames).items);
      PushLeaves(Front(b.frames), n);
      PushAligned(Front(open), Front(b.containers), Front(b.frames), n);
    }
  }

  /** Changing what the innermost list holds changes no kind of frame. */
  lemma {:induction false} SwapAligned(open: seq<Tag>, containers: seq<bool>, frames: seq<Frame>, f: Frame)
    requires Aligned(open, containers, frames) && frames != [] && Last(frames).List? && f.List?
    ensures Aligned(open, containers, Front(frames) + [f])
    decreases |open|
  {
    var swapped := Front(frames) + [f];
    if open != [] && (Last(open) == I || Last(containers)) {
      assert Front(swapped) == Front(frames);
    } else if open != [] {
      SwapAligned(Front(open), Front(containers), frames, f);
    }
  }

  /** An item's nodes into its list. */
  lemma ItemIntoList(rest: seq<Frame>, nodes: seq<Node>)
    requires rest != [] && Last(rest).List?
    ensures AllLeaves(Front(rest) + [Last(rest).(items := Last(rest).items + [Entry(nodes)])]) == AllLeaves(rest) + Leaves(nodes)
  {
    var list := Last(rest);
    ItemLeavesMore(list.items, Entry(nodes));
    FramesMore(Front(rest), list.(items := list.items + [Entry(nodes)]));
  }

  lemma ItemSound(b: Build, open: seq<Tag>, p: Pen, cap: nat)
    requires Sound(b, open, p, cap) && open != [] && Last(open) == I
    ensures Sound(ItemClosed(b), Front(open), p, cap)
    ensures Last(b.frames).Item?
  {
    var nodes, rest := Last(b.frames).nodes, Front(b.frames);
    RootFirst(Front(open), b.containers, rest);
    if Last(rest).List? {
      var list := Last(rest);
      SwapAligned(Front(open), b.containers, rest, list.(items := list.items + [Entry(nodes)]));
      ItemIntoList(rest, nodes);
    } else {
      PushAllLeaves(rest, nodes);
      PushAllAligned(Front(open), b.containers, rest, nodes);
    }
  }

  lemma StartItemSound(b: Build, open: seq<Tag>, p: Pen, cap: nat)
    requires Sound(b, open, p, cap)
    ensures Sound(b.(frames := b.frames + [Item([])]), open + [I], p, cap)
  {
    FramesMore(b.frames, Item([]));
    RootFirst(open, b.containers, b.frames);
    assert Front(open + [I]) == open && Front(b.frames + [Item([])]) == b.frames;
  }

  lemma CodeSound(b: Build, open: seq<Tag>, p: Pen, cap: nat, e: Event)
    requires Sound(b, open, p, cap) && b.code.Some?
    ensures Sound(Step(b, e, cap), open, PenStep(p, e), cap)
  {
    if e.EndCode? {
      var code := TrimBreaks(b.code.value);
      if !IsBlank(code) {
        PushSound(b.(code := None), open, p.(code := None), cap, Code(code), CodeLeaf(code));
      }
    }
  }

  lemma StepSound(b: Build, open: seq<Tag>, p: Pen, cap: nat, e: Event, next: seq<Tag>)
    requires Sound(b, open, p, cap) && b.code.None?
    requires match e
             case StartQuote => next == open + [Q]
             case StartList(_) => next == open + [L]
             case StartItem => next == open + [I]
             case EndQuote => Popped(open, Q) == Some(next)
             case EndList => Popped(open, L) == Some(next)
             case EndItem => Popped(open, I) == Some(next)
             case _ => next == open
    ensures Sound(Step(b, e, cap), next, PenStep(p, e), cap)
  {
    FlushSound(b, open, p, cap);
    var t, q := Flushed(b), PenFlushed(p);
    match e
    case BreakRule => PushSound(t, open, q, cap, Rule, RuleLeaf);
    case TableText(text) => PushSound(t, open, q, cap, Code(text), CodeLeaf(text));
    case StartQuote => OpenSound(t, open, q, cap, Q, Quote([]));
    case StartList(start) => OpenSound(t, open, q, cap, L, List(start, []));
    case StartItem => StartItemSound(t, open, q, cap);
    case EndQuote => QuoteSound(t, open, q, cap);
    case EndList => ListSound(t, open, q, cap);
    case EndItem => ItemSound(t, open, q, cap);
    case _ =>
  }

  /** Whatever the cap: the open frames are those of the open tags that were
      kept, `kept` is how many quotes and lists have one, never more than the
      cap, and the leaves are what the events wrote, in order. */
  lemma {:induction false} BuiltSound(events: seq<Event>, cap: nat)
    requires WellNested(events)
    ensures Sound(Built(events, cap), Open(events).value, PenOf(events), cap)
  {
    if events == [] {
      assert AllLeaves([Root([])]) == [] by { assert Front([Root([])]) == []; }
    } else {
      var front, e := Front(events), Last(events);
      BuiltSound(front, cap);
      if PenOf(front).code.Some? {
        CodeSound(Built(front, cap), Open(front).value, PenOf(front), cap, e);
      } else {
        StepSound(Built(front, cap), Open(front).value, PenOf(front), cap, e, Open(events).value);
      }
    }
  }

  /** The tree of well-nested events, however it was cut short, has the leaves the
      events wrote: the same under every cap, none at all included. */
  lemma CapLosesNothing(events: seq<Event>, cap: nat, other: nat)
    requires WellNested(events)
    ensures var tree := (c: nat) => Unwound(Flushed(Built(events, c)).frames);
            Leaves(tree(cap)) == Leaves(tree(other)) == PenFlushed(PenOf(events)).leaves
  {
    TreeLeaves(events, cap);
    TreeLeaves(events, other);
  }

  lemma TreeLeaves(events: seq<Event>, cap: nat)
    requires WellNested(events)
    ensures Leaves(Unwound(Flushed(Built(events, cap)).frames)) == PenFlushed(PenOf(events)).leaves
  {
    var b, open, p := Built(events, cap), Open(events).value, PenOf(events);
    BuiltSound(events, cap);
    FlushSound(b, open, p, cap);
    RootFirst(open, b.containers, Flushed(b).frames);
    UnwoundLeaves(Flushed(b).frames);
  }
}
