/**
 The tree built of a document that was written out: the document itself, when it
 nests no deeper than the cap, and otherwise each quote or list that does not fit
 replaced by what it holds.
 */
module NestingShape {
  import opened Basics
  import opened Wrappers
  import opened Texts
  import opened Nesting
  import opened NestingDepth

  // ─── A document, written out ────────────────────────────────────────────

  /** The events of a node: a run of text in a paragraph of its own, the rest
      between their starts and ends; code ends its last line, as it is parsed. */
  function Write(n: Node): seq<Event> {
    match n
    case Text(text) => [StartParagraph, Written(text), EndParagraph]
    case Code(code) => [StartCode, Written(code + "\n"), EndCode]
    case Rule => [BreakRule]
    case QuoteNode(nodes) => [StartQuote] + WriteAll(nodes) + [EndQuote]
    case ListNode(start, items) => [StartList(start)] + WriteItems(items) + [EndList]
  }

  function WriteAll(nodes: seq<Node>): seq<Event> {
    if nodes == [] then [] else WriteAll(nodes[..|nodes| - 1]) + Write(nodes[|nodes| - 1])
  }

  function WriteItems(items: seq<Entry>): seq<Event> {
    if items == [] then [] else
      WriteItems(items[..|items| - 1]) + ([StartItem] + WriteAll(items[|items| - 1].nodes) + [EndItem])
  }

  /** No run of text is empty, no code blank or ending in a line break: a parsed
      document has none. */
  predicate Normal(n: Node) {
    match n
    case Text(text) => text != ""
    case Code(code) => !IsBlank(code) && Last(code) != '\n'
    case Rule => true
    case QuoteNode(nodes) => AllNormal(nodes)
    case ListNode(_, items) => ItemsNormal(items)
  }

  predicate AllNormal(nodes: seq<Node>) {
    nodes == [] || (AllNormal(nodes[..|nodes| - 1]) && Normal(nodes[|nodes| - 1]))
  }

  predicate ItemsNormal(items: seq<Entry>) {
    items == [] || (ItemsNormal(items[..|items| - 1]) && AllNormal(items[|items| - 1].nodes))
  }

  // ─── What the cap makes of it ───────────────────────────────────────────

  /** The node where `room` more levels fit: a quote or list that has none is what
      it holds, in its place. */
  function Fitted(n: Node, room: nat): seq<Node> {
    match n
    case QuoteNode(nodes) => if room > 0 then [QuoteNode(FittedAll(nodes, room - 1))] else FittedAll(nodes, 0)
    case ListNode(start, items) => if room > 0 then [ListNode(start, FittedItems(items, room - 1))] else Spilled(items)
    case _ => [n]
  }

  function FittedAll(nodes: seq<Node>, room: nat): seq<Node> {
    if nodes == [] then [] else FittedAll(nodes[..|nodes| - 1], room) + Fitted(nodes[|nodes| - 1], room)
  }

  function FittedItems(items: seq<Entry>, room: nat): seq<Entry> {
    if items == [] then [] else FittedItems(items[..|items| - 1], room) + [Entry(FittedAll(items[|items| - 1].nodes, room))]
  }

  /** The nodes of the items, one after the other. */
  function Spilled(items: seq<Entry>): seq<Node> {
    if items == [] then [] else Spilled(items[..|items| - 1]) + FittedAll(items[|items| - 1].nodes, 0)
  }

  lemma {:induction false} FittedIsItself(n: Node, room: nat)
    requires NodeDepth(n) <= room
    ensures Fitted(n, room) == [n]
  {
    match n
    case QuoteNode(nodes) => AllFittedThemselves(nodes, room - 1);
    case ListNode(_, items) => ItemsFittedThemselves(items, room - 1);
    case _ =>
  }

  lemma {:induction false} AllFittedThemselves(nodes: seq<Node>, room: nat)
    requires Depth(nodes) <= room
    ensures FittedAll(nodes, room) == nodes
  {
    if nodes != [] {
      AllFittedThemselves(nodes[..|nodes| - 1], room);
      FittedIsItself(nodes[|nodes| - 1], room);
    }
  }

  lemma {:induction false} ItemsFittedThemselves(items: seq<Entry>, room: nat)
    requires ItemsDepth(items) <= room
    ensures FittedItems(items, room) == items
  {
    if items != [] {
      ItemsFittedThemselves(items[..|items| - 1], room);
      AllFittedThemselves(items[|items| - 1].nodes, room);
    }
  }

  // ─── Events one after the other ─────────────────────────────────────────

  function Go(b: Build, events: seq<Event>, cap: nat): Build {
    if events == [] then b else Step(Go(b, Front(events), cap), Last(events), cap)
  }

  lemma {:induction false} GoOn(b: Build, events: seq<Event>, more: seq<Event>, cap: nat)
    ensures Go(b, events + more, cap) == Go(Go(b, events, cap), more, cap)
    decreases |more|
  {
    if more == [] {
      assert events + more == events;
    } else {
      assert Front(events + more) == events + Front(more);
      GoOn(b, events, Front(more), cap);
    }
  }

  lemma GoOne(b: Build, e: Event, cap: nat)
    ensures Go(b, [e], cap) == Step(b, e, cap)
  {
    assert Front([e]) == [];
  }

  /** A start, what is inside, and an end. */
  lemma GoInside(b: Build, start: Event, inside: seq<Event>, end: Event, cap: nat)
    ensures Go(b, [start] + inside + [end], cap) == Step(Go(Step(b, start, cap), inside, cap), end, cap)
  {
    GoOn(b, [start] + inside, [end], cap);
    GoOn(b, [start], inside, cap);
    GoOne(b, start, cap);
    GoOne(Go(b, [start] + inside, cap), end, cap);
  }

  lemma {:induction false} BuiltIsGo(events: seq<Event>, cap: nat)
    ensures Built(events, cap) == Go(EMPTY, events, cap)
  {
    if events != [] {
      BuiltIsGo(Front(events), cap);
    }
  }

  // ─── Growing the innermost frame ────────────────────────────────────────

  /** Nothing half written, and the innermost frame takes nodes. */
  predicate Ready(b: Build) { b.inline.None? && b.code.None? && b.frames != [] && !Last(b.frames).List? }

  /** Nothing half written, and the innermost frame is a list. */
  predicate InList(b: Build) { b.inline.None? && b.code.None? && b.frames != [] && Last(b.frames).List? }

  function With(f: Frame, nodes: seq<Node>): Frame
    requires !f.List?
  {
    match f
    case Root(before) => Root(before + nodes)
    case Quote(before) => Quote(before + nodes)
    case Item(before) => Item(before + nodes)
  }

  function Grown(frames: seq<Frame>, nodes: seq<Node>): seq<Frame>
    requires frames != [] && !Last(frames).List?
  {
    Front(frames) + [With(Last(frames), nodes)]
  }

  lemma GrownTwice(frames: seq<Frame>, a: seq<Node>, b: seq<Node>)
    requires frames != [] && !Last(frames).List?
    ensures Grown(frames, a) != [] && !Last(Grown(frames, a)).List? && Grown(Grown(frames, a), b) == Grown(frames, a + b)
  {
    var before := match Last(frames) case Root(n) => n case Quote(n) => n case Item(n) => n;
    assert before + a + b == before + (a + b);
    assert Front(Grown(frames, a)) == Front(frames);
  }

  lemma GrownByNone(frames: seq<Frame>)
    requires frames != [] && !Last(frames).List?
    ensures Grown(frames, []) == frames
  {
    assert With(Last(frames), []) == Last(frames);
    assert Front(frames) + [Last(frames)] == frames;
  }

  lemma {:induction false} PushAllGrows(frames: seq<Frame>, nodes: seq<Node>)
    requires frames != [] && !Last(frames).List?
    ensures PushAll(frames, nodes) == Grown(frames, nodes)
  {
    if nodes == [] {
      GrownByNone(frames);
    } else {
      PushAllGrows(frames, nodes[..|nodes| - 1]);
      GrownTwice(frames, nodes[..|nodes| - 1], [nodes[|nodes| - 1]]);
      assert nodes[..|nodes| - 1] + [nodes[|nodes| - 1]] == nodes;
    }
  }

  function Adding(b: Build, nodes: seq<Node>): Build
    requires Ready(b)
  {
    b.(frames := Grown(b.frames, nodes))
  }

  // ─── Each node ──────────────────────────────────────────────────────────

  lemma TextGoes(b: Build, text: string, cap: nat)
    requires Ready(b) && text != ""
    ensures Go(b, Write(Text(text)), cap) == Adding(b, [Text(text)])
  {
    GoInside(b, StartParagraph, [Written(text)], EndParagraph, cap);
    GoOne(Step(b, StartParagraph, cap), Written(text), cap);
    assert [StartParagraph] + [Written(text)] + [EndParagraph] == Write(Text(text));
    assert "" + text == text;
  }

  lemma BreakTrimmed(code: string)
    requires code != "" && Last(code) != '\n'
    ensures TrimBreaks(code + "\n") == code
  {
    assert (code + "\n")[..|code|] == code;
  }

  /** What is left of code is all but the line breaks at its end. */
  lemma {:induction false} OnlyBreaksTrimmed(code: string)
    ensures var left := TrimBreaks(code);
            && left <= code && (left == "" || Last(left) != '\n')
            && forall k :: |left| <= k < |code| ==> code[k] == '\n'
  {
    if code != "" && Last(code) == '\n' {
      OnlyBreaksTrimmed(Front(code));
    }
  }

  lemma CodeSteps(b: Build, written: string, cap: nat)
    requires Ready(b)
    ensures var code := TrimBreaks(written);
            Step(Step(Step(b, StartCode, cap), Written(written), cap), EndCode, cap)
            == if IsBlank(code) then b else b.(frames := Push(b.frames, Code(code)))
  {
    assert "" + written == written;
  }

  lemma CodeGoes(b: Build, code: string, cap: nat)
    requires Ready(b) && Normal(Code(code))
    ensures Go(b, Write(Code(code)), cap) == Adding(b, [Code(code)])
  {
    var written := code + "\n";
    GoInside(b, StartCode, [Written(written)], EndCode, cap);
    GoOne(Step(b, StartCode, cap), Written(written), cap);
    assert [StartCode] + [Written(written)] + [EndCode] == Write(Code(code));
    BreakTrimmed(code);
    CodeSteps(b, written, cap);
  }

  lemma RuleGoes(b: Build, cap: nat)
    requires Ready(b)
    ensures Go(b, Write(Rule), cap) == Adding(b, [Rule])
  {
    GoOne(b, BreakRule, cap);
  }

  /** A quote with a frame, closed: one node more in the frame before it. */
  lemma QuoteKept(b: Build, inside: Build, nodes: seq<Node>, cap: nat)
    requires Ready(b) && b.kept < cap && inside == Adding(Opened(b, Quote([]), cap), nodes)
    ensures Step(inside, EndQuote, cap) == Adding(b, [QuoteNode(nodes)])
  {
    assert Front(inside.containers) == b.containers && Front(inside.frames) == b.frames;
    assert [] + nodes == nodes;
  }

  /** One without: what it holds is there already. */
  lemma QuoteDropped(b: Build, inside: Build, nodes: seq<Node>, cap: nat)
    requires Ready(b) && b.kept >= cap && inside == Adding(Opened(b, Quote([]), cap), nodes)
    ensures Step(inside, EndQuote, cap) == Adding(b, nodes)
  {
    assert Front(inside.containers) == b.containers;
  }

  function AddingItems(b: Build, items: seq<Entry>): Build
    requires b.frames != [] && Last(b.frames).List?
  {
    b.(frames := Front(b.frames) + [List(Last(b.frames).start, Last(b.frames).items + items)])
  }

  lemma ListKept(b: Build, start: Option<nat>, inside: Build, items: seq<Entry>, cap: nat)
    requires Ready(b) && b.kept < cap && inside == AddingItems(Opened(b, List(start, []), cap), items)
    ensures Step(inside, EndList, cap) == Adding(b, [ListNode(start, items)])
  {
    assert Front(inside.containers) == b.containers && Front(inside.frames) == b.frames;
    assert [] + items == items;
  }

  lemma ListDropped(b: Build, start: Option<nat>, inside: Build, nodes: seq<Node>, cap: nat)
    requires Ready(b) && b.kept >= cap && inside == Adding(Opened(b, List(start, []), cap), nodes)
    ensures Step(inside, EndList, cap) == Adding(b, nodes)
  {
    assert Front(inside.containers) == b.containers;
  }

  /** An item of a list with a frame. */
  lemma ItemKept(b: Build, inside: Build, nodes: seq<Node>, cap: nat)
    requires b.inline.None? && b.code.None? && b.frames != [] && Last(b.frames).List?
    requires inside == Adding(b.(frames := b.frames + [Item([])]), nodes)
    ensures Step(inside, EndItem, cap) == AddingItems(b, [Entry(nodes)])
  {
    assert Front(inside.frames) == b.frames && [] + nodes == nodes;
  }

  /** One of a list without. */
  lemma ItemDropped(b: Build, inside: Build, nodes: seq<Node>, cap: nat)
    requires Ready(b) && inside == Adding(b.(frames := b.frames + [Item([])]), nodes)
    ensures Step(inside, EndItem, cap) == Adding(b, nodes)
  {
    assert Front(inside.frames) == b.frames && [] + nodes == nodes;
    PushAllGrows(b.frames, nodes);
  }

  lemma Starts(b: Build, start: Option<nat>, cap: nat)
    requires b.inline.None? && b.code.None?
    ensures Step(b, StartQuote, cap) == Opened(b, Quote([]), cap) && Step(b, StartList(start), cap) == Opened(b, List(start, []), cap)
    ensures Step(b, StartItem, cap) == b.(frames := b.frames + [Item([])])
  {
  }

  function InQuote(b: Build, cap: nat): (t: Build)
    requires Ready(b)
    ensures Ready(t) && t.kept == if b.kept < cap then b.kept + 1 else b.kept
  {
    Opened(b, Quote([]), cap)
  }

  function InItem(b: Build): (t: Build)
    requires b.inline.None? && b.code.None?
    ensures Ready(t) && t.kept == b.kept
  {
    b.(frames := b.frames + [Item([])])
  }

  lemma QuoteGoes(b: Build, events: seq<Event>, nodes: seq<Node>, cap: nat)
    requires Ready(b) && Go(InQuote(b, cap), events, cap) == Adding(InQuote(b, cap), nodes)
    ensures Go(b, [StartQuote] + events + [EndQuote], cap) == Adding(b, if b.kept < cap then [QuoteNode(nodes)] else nodes)
  {
    Starts(b, None, cap);
    GoInside(b, StartQuote, events, EndQuote, cap);
    if b.kept < cap {
      QuoteKept(b, Adding(InQuote(b, cap), nodes), nodes, cap);
    } else {
      QuoteDropped(b, Adding(InQuote(b, cap), nodes), nodes, cap);
    }
  }

  lemma KeptListGoes(b: Build, start: Option<nat>, events: seq<Event>, items: seq<Entry>, cap: nat)
    requires Ready(b) && b.kept < cap
    requires Go(Opened(b, List(start, []), cap), events, cap) == AddingItems(Opened(b, List(start, []), cap), items)
    ensures Go(b, [StartList(start)] + events + [EndList], cap) == Adding(b, [ListNode(start, items)])
  {
    Starts(b, start, cap);
    GoInside(b, StartList(start), events, EndList, cap);
    ListKept(b, start, AddingItems(Opened(b, List(start, []), cap), items), items, cap);
  }

  lemma DroppedListGoes(b: Build, start: Option<nat>, events: seq<Event>, nodes: seq<Node>, cap: nat)
    requires Ready(b) && b.kept >= cap
    requires Go(Opened(b, List(start, []), cap), events, cap) == Adding(Opened(b, List(start, []), cap), nodes)
    ensures Go(b, [StartList(start)] + events + [EndList], cap) == Adding(b, nodes)
  {
    Starts(b, start, cap);
    GoInside(b, StartList(start), events, EndList, cap);
    ListDropped(b, start, Adding(Opened(b, List(start, []), cap), nodes), nodes, cap);
  }

  lemma KeptItemGoes(b: Build, events: seq<Event>, nodes: seq<Node>, cap: nat)
    requires InList(b)
    requires Go(InItem(b), events, cap) == Adding(InItem(b), nodes)
    ensures Go(b, [StartItem] + events + [EndItem], cap) == AddingItems(b, [Entry(nodes)])
  {
    Starts(b, None, cap);
    GoInside(b, StartItem, events, EndItem, cap);
    ItemKept(b, Adding(InItem(b), nodes), nodes, cap);
  }

  lemma DroppedItemGoes(b: Build, events: seq<Event>, nodes: seq<Node>, cap: nat)
    requires Ready(b) && Go(InItem(b), events, cap) == Adding(InItem(b), nodes)
    ensures Go(b, [StartItem] + events + [EndItem], cap) == Adding(b, nodes)
  {
    Starts(b, None, cap);
    GoInside(b, StartItem, events, EndItem, cap);
    ItemDropped(b, Adding(InItem(b), nodes), nodes, cap);
  }

  lemma {:induction false} Goes(b: Build, n: Node, cap: nat, room: nat)
    requires Ready(b) && Normal(n) && b.kept + room == cap
    ensures Go(b, Write(n), cap) == Adding(b, Fitted(n, room))
    decreases n
  {
    match n
    case Text(text) => TextGoes(b, text, cap);
    case Code(code) => CodeGoes(b, code, cap);
    case Rule => RuleGoes(b, cap);
    case QuoteNode(nodes) => QuoteNodeGoes(b, nodes, cap, room);
    case ListNode(start, items) => ListNodeGoes(b, start, items, cap, room);
  }

  lemma {:induction false} QuoteNodeGoes(b: Build, nodes: seq<Node>, cap: nat, room: nat)
    requires Ready(b) && AllNormal(nodes) && b.kept + room == cap
    ensures Go(b, Write(QuoteNode(nodes)), cap) == Adding(b, Fitted(QuoteNode(nodes), room))
    decreases nodes, 1
  {
    var left := if room > 0 then room - 1 else 0;
    AllGo(InQuote(b, cap), nodes, cap, left);
    QuoteGoes(b, WriteAll(nodes), FittedAll(nodes, left), cap);
  }

  lemma {:induction false} ListNodeGoes(b: Build, start: Option<nat>, items: seq<Entry>, cap: nat, room: nat)
    requires Ready(b) && ItemsNormal(items) && b.kept + room == cap
    ensures Go(b, Write(ListNode(start, items)), cap) == Adding(b, Fitted(ListNode(start, items), room))
    decreases items, 1
  {
    var t := Opened(b, List(start, []), cap);
    if room > 0 {
      ItemsGo(t, items, cap, room - 1);
      KeptListGoes(b, start, WriteItems(items), FittedItems(items, room - 1), cap);
    } else {
      ItemsSpill(t, items, cap);
      DroppedListGoes(b, start, WriteItems(items), Spilled(items), cap);
    }
  }

  lemma {:induction false} AllGo(b: Build, nodes: seq<Node>, cap: nat, room: nat)
    requires Ready(b) && AllNormal(nodes) && b.kept + room == cap
    ensures Go(b, WriteAll(nodes), cap) == Adding(b, FittedAll(nodes, room))
    decreases nodes, 0
  {
    if nodes == [] {
      GrownByNone(b.frames);
    } else {
      var front, last := nodes[..|nodes| - 1], nodes[|nodes| - 1];
      GoOn(b, WriteAll(front), Write(last), cap);
      AllGo(b, front, cap, room);
      GrownTwice(b.frames, FittedAll(front, room), Fitted(last, room));
      Goes(Adding(b, FittedAll(front, room)), last, cap, room);
    }
  }

  lemma {:induction false} ItemsGo(b: Build, items: seq<Entry>, cap: nat, room: nat)
    requires InList(b) && ItemsNormal(items) && b.kept + room == cap
    ensures Go(b, WriteItems(items), cap) == AddingItems(b, FittedItems(items, room))
    decreases items, 0
  {
    if items == [] {
      NoItems(b);
    } else {
      var front, last := items[..|items| - 1], items[|items| - 1].nodes;
      GoOn(b, WriteItems(front), [StartItem] + WriteAll(last) + [EndItem], cap);
      ItemsGo(b, front, cap, room);
      ItemGoes(AddingItems(b, FittedItems(front, room)), last, cap, room);
      ItemsTwice(b, FittedItems(front, room), [Entry(FittedAll(last, room))]);
    }
  }

  lemma {:induction false} ItemGoes(b: Build, nodes: seq<Node>, cap: nat, room: nat)
    requires InList(b) && AllNormal(nodes) && b.kept + room == cap
    ensures Go(b, [StartItem] + WriteAll(nodes) + [EndItem], cap) == AddingItems(b, [Entry(FittedAll(nodes, room))])
    decreases nodes, 1
  {
    AllGo(InItem(b), nodes, cap, room);
    KeptItemGoes(b, WriteAll(nodes), FittedAll(nodes, room), cap);
  }

  lemma NoItems(b: Build)
    requires b.frames != [] && Last(b.frames).List?
    ensures AddingItems(b, []) == b
  {
    assert Last(b.frames).items + [] == Last(b.frames).items;
    assert Front(b.frames) + [Last(b.frames)] == b.frames;
  }

  lemma ItemsTwice(b: Build, x: seq<Entry>, y: seq<Entry>)
    requires b.frames != [] && Last(b.frames).List?
    ensures AddingItems(AddingItems(b, x), y) == AddingItems(b, x + y)
  {
    var items := Last(b.frames).items;
    assert items + x + y == items + (x + y);
    assert Front(AddingItems(b, x).frames) == Front(b.frames);
  }

  lemma {:induction false} ItemsSpill(b: Build, items: seq<Entry>, cap: nat)
    requires Ready(b) && ItemsNormal(items) && b.kept == cap
    ensures Go(b, WriteItems(items), cap) == Adding(b, Spilled(items))
    decreases items, 0
  {
    if items == [] {
      GrownByNone(b.frames);
    } else {
      var front, last := items[..|items| - 1], items[|items| - 1].nodes;
      GrownTwice(b.frames, Spilled(front), FittedAll(last, 0));
      var middle := Adding(b, Spilled(front));
      GoOn(b, WriteItems(front), [StartItem] + WriteAll(last) + [EndItem], cap);
      ItemsSpill(b, front, cap);
      AllGo(InItem(middle), last, cap, 0);
      DroppedItemGoes(middle, WriteAll(last), FittedAll(last, 0), cap);
    }
  }

  // ─── The round trip ─────────────────────────────────────────────────────

  lemma RootHolds(nodes: seq<Node>)
    ensures Unwound(Flushed(Adding(EMPTY, nodes)).frames) == nodes
  {
    assert Front([Root([])]) == [] && [] + nodes == nodes;
  }

  /** Whatever the cap, a document written out is built as the cap fits it. */
  lemma WrittenIsFitted(nodes: seq<Node>, cap: nat)
    requires AllNormal(nodes)
    ensures Unwound(Flushed(Built(WriteAll(nodes), cap)).frames) == FittedAll(nodes, cap)
  {
    BuiltIsGo(WriteAll(nodes), cap);
    AllGo(EMPTY, nodes, cap, cap);
    RootHolds(FittedAll(nodes, cap));
  }

  /** And as it is, when it nests no deeper than the cap. */
  lemma WrittenReadsBack(nodes: seq<Node>, cap: nat)
    requires AllNormal(nodes) && Depth(nodes) <= cap
    ensures Unwound(Flushed(Built(WriteAll(nodes), cap)).frames) == nodes
  {
    WrittenIsFitted(nodes, cap);
    AllFittedThemselves(nodes, cap);
  }

  /** So does the builder itself, up to sixteen deep. */
  method ReadBack(nodes: seq<Node>) returns (again: seq<Node>)
    requires AllNormal(nodes)
    ensures again == FittedAll(nodes, MAX_NESTING) && (Depth(nodes) <= MAX_NESTING ==> again == nodes)
  {
    WrittenIsFitted(nodes, MAX_NESTING);
    again := Read(WriteAll(nodes));
    if Depth(nodes) <= MAX_NESTING {
      AllFittedThemselves(nodes, MAX_NESTING);
    }
  }
}
