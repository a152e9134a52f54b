/**
 The nesting cap holds: no tree nests quotes and lists deeper than it.
 */
module NestingDepth {
  import opened Basics
  import opened Nesting
  import opened NestingResults

  function NodeDepth(n: Node): nat {
    match n
    case QuoteNode(nodes) => 1 + Depth(nodes)
    case ListNode(_, items) => 1 + ItemsDepth(items)
    case _ => 0
  }

  /** How deep quotes and lists nest in the nodes. */
  function Depth(nodes: seq<Node>): nat {
    if nodes == [] then 0 else Max(Depth(nodes[..|nodes| - 1]), NodeDepth(nodes[|nodes| - 1]))
  }

  function ItemsDepth(items: seq<Entry>): nat {
    if items == [] then 0 else Max(ItemsDepth(items[..|items| - 1]), Depth(items[|items| - 1].nodes))
  }

  function FrameDepth(f: Frame): nat {
    match f
    case Root(nodes) => Depth(nodes)
    case Quote(nodes) => Depth(nodes)
    case Item(nodes) => Depth(nodes)
    case List(_, items) => ItemsDepth(items)
  }

  function Level(f: Frame): nat { if f.Quote? || f.List? then 1 else 0 }

  /** How many of the open frames are quotes or lists. */
  function Levels(frames: seq<Frame>): nat {
    if frames == [] then 0 else Levels(Front(frames)) + Level(Last(frames))
  }

  /** What each frame holds, under the quotes and lists it is in, is within the cap. */
  ghost predicate Shallow(frames: seq<Frame>, cap: nat) {
    frames != [] ==> Shallow(Front(frames), cap) && Levels(frames) + FrameDepth(Last(frames)) <= cap
  }

  lemma DepthMore(nodes: seq<Node>, n: Node)
    ensures Depth(nodes + [n]) == Max(Depth(nodes), NodeDepth(n))
  {
    assert (nodes + [n])[..|nodes|] == nodes;
  }

  lemma ItemsDepthMore(items: seq<Entry>, e: Entry)
    ensures ItemsDepth(items + [e]) == Max(ItemsDepth(items), Depth(e.nodes))
  {
    assert (items + [e])[..|items|] == items;
  }

  lemma OneEntryDepth(n: Node)
    ensures ItemsDepth([Entry([n])]) == NodeDepth(n)
  {
    DepthMore([], n);
    ItemsDepthMore([], Entry([n]));
    assert [] + [n] == [n] && [] + [Entry([n])] == [Entry([n])];
  }

  lemma IntoDepth(f: Frame, n: Node)
    ensures FrameDepth(Into(f, n)) == Max(FrameDepth(f), NodeDepth(n)) && Level(Into(f, n)) == Level(f)
  {
    match f
    case Root(nodes) => DepthMore(nodes, n);
    case Quote(nodes) => DepthMore(nodes, n);
    case Item(nodes) => DepthMore(nodes, n);
    case List(_, items) =>
      if items == [] {
        OneEntryDepth(n);
      } else {
        DepthMore(items[|items| - 1].nodes, n);
        ItemsDepthMore(items[..|items| - 1], Entry(items[|items| - 1].nodes + [n]));
      }
  }

  lemma PushShallow(frames: seq<Frame>, n: Node, cap: nat)
    requires frames != [] && Shallow(frames, cap) && Levels(frames) + NodeDepth(n) <= cap
    ensures Push(frames, n) != [] && Shallow(Push(frames, n), cap) && Levels(Push(frames, n)) == Levels(frames)
  {
    IntoDepth(Last(frames), n);
    assert Front(Push(frames, n)) == Front(frames);
  }

  lemma {:induction false} PushAllShallow(frames: seq<Frame>, nodes: seq<Node>, cap: nat)
    requires frames != [] && Shallow(frames, cap) && Levels(frames) + Depth(nodes) <= cap
    ensures PushAll(frames, nodes) != [] && Shallow(PushAll(frames, nodes), cap) && Levels(PushAll(frames, nodes)) == Levels(frames)
  {
    if nodes != [] {
      PushAllShallow(frames, Front(nodes), cap);
      PushShallow(PushAll(frames, Front(nodes)), Last(nodes), cap);
    }
  }

  /** The frames that count as levels are the kept containers'. */
  lemma {:induction false} LevelsAreKept(open: seq<Tag>, containers: seq<bool>, frames: seq<Frame>)
    requires Aligned(open, containers, frames)
    ensures Levels(frames) == Trues(containers)
    decreases |open|
  {
    if open == [] {
      assert Front(frames) == [];
    } else if Last(open) == I {
      LevelsAreKept(Front(open), containers, Front(frames));
    } else {
      LevelsAreKept(Front(open), Front(containers), if Last(containers) then Front(frames) else frames);
    }
  }

  ghost predicate Deep(b: Build, open: seq<Tag>, p: Pen, cap: nat) {
    Sound(b, open, p, cap) && Shallow(b.frames, cap)
  }

  lemma LeafShallow(b: Build, open: seq<Tag>, p: Pen, cap: nat, n: Node)
    requires Deep(b, open, p, cap) && NodeDepth(n) == 0
    ensures Shallow(Push(b.frames, n), cap)
  {
    LevelsAreKept(open, b.containers, b.frames);
    RootFirst(open, b.containers, b.frames);
    PushShallow(b.frames, n, cap);
  }

  lemma FlushDeep(b: Build, open: seq<Tag>, p: Pen, cap: nat)
    requires Deep(b, open, p, cap)
    ensures Deep(Flushed(b), open, PenFlushed(p), cap)
  {
    FlushSound(b, open, p, cap);
    if b.inline.Some? {
      LeafShallow(b, open, p, cap, Text(b.inline.value));
    }
  }

  lemma OpenDeep(b: Build, open: seq<Tag>, p: Pen, cap: nat, frame: Frame)
    requires Deep(b, open, p, cap) && FrameDepth(frame) == 0
    ensures Shallow(Opened(b, frame, cap).frames, cap) && Shallow((b.frames + [Item([])]), cap)
  {
    LevelsAreKept(open, b.containers, b.frames);
    assert Front(b.frames + [frame]) == b.frames && Front(b.frames + [Item([])]) == b.frames;
  }

  lemma QuoteDeep(b: Build, open: seq<Tag>, p: Pen, cap: nat)
    requires Deep(b, open, p, cap) && open != [] && Last(open) == Q
    ensures Shallow(QuoteClosed(b).frames, cap)
  {
    if Keeps(b) {
      PushShallow(Front(b.frames), QuoteNode(Last(b.frames).nodes), cap);
    }
  }

  lemma ListDeep(b: Build, open: seq<Tag>, p: Pen, cap: nat)
    requires Deep(b, open, p, cap) && open != [] && Last(open) == L
    ensures Shallow(ListClosed(b).frames, cap)
  {
    if Keeps(b) {
      PushShallow(Front(b.frames), ListNode(Last(b.frames).start, Last(b.frames).items), cap);
    }
  }

  lemma ItemIntoListDeep(rest: seq<Frame>, nodes: seq<Node>, cap: nat)
    requires rest != [] && Last(rest).List? && Shallow(rest, cap) && Levels(rest) + Depth(nodes) <= cap
    ensures Shallow(Front(rest) + [Last(rest).(items := Last(rest).items + [Entry(nodes)])], cap)
  {
    var list := Last(rest);
    var more := list.(items := list.items + [Entry(nodes)]);
    var all := Front(rest) + [more];
    ItemsDepthMore(list.items, Entry(nodes));
    assert Front(all) == Front(rest) && Last(all) == more;
    assert Levels(all) == Levels(rest);
  }

  lemma ItemDeep(b: Build, open: seq<Tag>, p: Pen, cap: nat)
    requires Deep(b, open, p, cap) && open != [] && Last(open) == I
    ensures Shallow(ItemClosed(b).frames, cap)
  {
    var nodes, rest := Last(b.frames).nodes, Front(b.frames);
    RootFirst(Front(open), b.containers, rest);
    if Last(rest).List? {
      ItemIntoListDeep(rest, nodes, cap);
    } else {
      PushAllShallow(rest, nodes, cap);
    }
  }

  lemma StepDeep(b: Build, open: seq<Tag>, p: Pen, cap: nat, e: Event)
    requires Deep(b, open, p, cap) && b.code.None?
    requires e.EndQuote? ==> open != [] && Last(open) == Q
    requires e.EndList? ==> open != [] && Last(open) == L
    requires e.EndItem? ==> open != [] && Last(open) == I
    ensures Shallow(Step(b, e, cap).frames, cap)
  {
    FlushDeep(b, open, p, cap);
    var t, q := Flushed(b), PenFlushed(p);
    match e
    case BreakRule => LeafShallow(t, open, q, cap, Rule);
    case TableText(text) => LeafShallow(t, open, q, cap, Code(text));
    case StartQuote => OpenDeep(t, open, q, cap, Quote([]));
    case StartList(start) => OpenDeep(t, open, q, cap, List(start, []));
    case StartItem => OpenDeep(t, open, q, cap, Item([]));
    case EndQuote => QuoteDeep(t, open, q, cap);
    case EndList => ListDeep(t, open, q, cap);
    case EndItem => ItemDeep(t, open, q, cap);
    case _ =>
  }

  lemma {:induction false} BuiltShallow(events: seq<Event>, cap: nat)
    requires WellNested(events)
    ensures Shallow(Built(events, cap).frames, cap)
  {
    if events == [] {
      assert Front([Root([])]) == [];
    } else {
      var front, e := Front(events), Last(events);
      var b, open, p := Built(front, cap), Open(front).value, PenOf(front);
      BuiltShallow(front, cap);
      BuiltSound(front, cap);
      if b.code.None? {
        StepDeep(b, open, p, cap, e);
      } else if e.EndCode? {
        LeafShallow(b, open, p, cap, Code(TrimBreaks(b.code.value)));
      }
    }
  }

  lemma {:induction false} UnwoundDepth(frames: seq<Frame>, cap: nat)
    requires Shallow(frames, cap)
    ensures Depth(Unwound(frames)) <= cap
    decreases |frames|
  {
    if |frames| > 1 {
      var rest := Front(frames);
      match Last(frames)
      case Quote(nodes) => PushShallow(rest, QuoteNode(nodes), cap); UnwoundDepth(Push(rest, QuoteNode(nodes)), cap);
      case List(start, items) => PushShallow(rest, ListNode(start, items), cap); UnwoundDepth(Push(rest, ListNode(start, items)), cap);
      case Item(nodes) => PushAllSize(rest, nodes); PushAllShallow(rest, nodes, cap); UnwoundDepth(PushAll(rest, nodes), cap);
      case Root(nodes) => PushAllSize(rest, nodes); PushAllShallow(rest, nodes, cap); UnwoundDepth(PushAll(rest, nodes), cap);
    }
  }

  /** The tree of well-nested events, however they were cut short, nests quotes
      and lists at most `cap` deep. */
  lemma CapHolds(events: seq<Event>, cap: nat)
    requires WellNested(events)
    ensures Depth(Unwound(Flushed(Built(events, cap)).frames)) <= cap
  {
    BuiltShallow(events, cap);
    BuiltSound(events, cap);
    FlushDeep(Built(events, cap), Open(events).value, PenOf(events), cap);
    UnwoundDepth(Flushed(Built(events, cap)).frames, cap);
  }

  /** Any events through the builder. */
  method Read(events: seq<Event>) returns (nodes: seq<Node>)
    ensures nodes == Unwound(Flushed(Built(events, MAX_NESTING)).frames)
  {
    var b := new Builder();
    var k := 0;
    while k < |events|
      invariant 0 <= k <= |events| && b.Contents() == Built(events[..k], MAX_NESTING)
    {
      assert Front(events[..k + 1]) == events[..k];
      b.Take(events[k]);
      k := k + 1;
    }
    assert events[..k] == events;
    nodes := b.Finish();
  }

  /** A whole document through the builder: at most sixteen deep, with the leaves
      the events wrote. */
  method Tree(events: seq<Event>) returns (nodes: seq<Node>)
    requires WellNested(events)
    ensures Depth(nodes) <= MAX_NESTING && Leaves(nodes) == PenFlushed(PenOf(events)).leaves
  {
    nodes := Read(events);
    CapHolds(events, MAX_NESTING);
    TreeLeaves(events, MAX_NESTING);
  }
}
