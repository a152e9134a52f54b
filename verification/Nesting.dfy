/**
 The tree builder: Markdown events into nested blocks, quotes and lists kept at
 most so deep, deeper ones added to the deepest kept.

 Styles inside a run of text are not part of this model: a run is its text. A
 table is one event, with its text laid out.
 */
module Nesting {
  import opened Basics
  import opened Wrappers
  import opened Texts

  const MAX_NESTING: nat := 16

  datatype Node = Text(text: string) | Code(code: string) | Rule | QuoteNode(nodes: seq<Node>) | ListNode(start: Option<nat>, items: seq<Entry>)

  /** The nodes of one list item. */
  datatype Entry = Entry(nodes: seq<Node>)

  datatype Frame = Root(nodes: seq<Node>) | Quote(nodes: seq<Node>) | List(start: Option<nat>, items: seq<Entry>) | Item(nodes: seq<Node>)

  datatype Event =
    | Written(text: string) | BreakRule | TableText(text: string)
    | StartParagraph | EndParagraph | StartCode | EndCode
    | StartQuote | EndQuote | StartList(start: Option<nat>) | EndList | StartItem | EndItem

  /** The builder's fields. `containers` has an entry for every quote or list
      still open, true if a frame stands for it, and `kept` counts those. */
  datatype Build = Build(frames: seq<Frame>, containers: seq<bool>, kept: nat, inline: Option<string>, code: Option<string>)

  const EMPTY := Build([Root([])], [], 0, None, None)

  // ─── What each event does ───────────────────────────────────────────────

  function Into(f: Frame, node: Node): Frame {
    match f
    case Root(nodes) => Root(nodes + [node])
    case Quote(nodes) => Quote(nodes + [node])
    case Item(nodes) => Item(nodes + [node])
    case List(start, items) =>
      if items == [] then List(start, [Entry([node])])
      else List(start, items[..|items| - 1] + [Entry(items[|items| - 1].nodes + [node])])
  }

  function Push(frames: seq<Frame>, node: Node): seq<Frame> {
    if frames == [] then [Root([node])] else frames[..|frames| - 1] + [Into(frames[|frames| - 1], node)]
  }

  function PushAll(frames: seq<Frame>, nodes: seq<Node>): seq<Frame> {
    if nodes == [] then frames else Push(PushAll(frames, nodes[..|nodes| - 1]), nodes[|nodes| - 1])
  }

  function Flushed(b: Build): Build {
    if b.inline.None? then b
    else b.(inline := None, frames := if b.inline.value == "" then b.frames else Push(b.frames, Text(b.inline.value)))
  }

  /** A quote or list opens: with a frame unless `cap` have one. */
  function Opened(b: Build, frame: Frame, cap: nat): Build {
    var keep := b.kept < cap;
    b.(containers := b.containers + [keep], kept := if keep then b.kept + 1 else b.kept,
       frames := if keep then b.frames + [frame] else b.frames)
  }

  /** Whether the innermost open quote or list has a frame to close. */
  predicate Keeps(b: Build) { b.containers != [] && Last(b.containers) }

  function Closed(b: Build): Build {
    b.(containers := if b.containers == [] then [] else Front(b.containers),
       kept := if Keeps(b) && b.kept > 0 then b.kept - 1 else b.kept)
  }

  function QuoteClosed(b: Build): Build {
    var t := Closed(b);
    if !Keeps(b) || b.frames == [] then t
    else
      var frame := Last(b.frames);
      t.(frames := if frame.Quote? then Push(Front(b.frames), QuoteNode(frame.nodes)) else Front(b.frames))
  }

  function ListClosed(b: Build): Build {
    var t := Closed(b);
    if !Keeps(b) || b.frames == [] then t
    else
      var frame := Last(b.frames);
      t.(frames := if frame.List? then Push(Front(b.frames), ListNode(frame.start, frame.items)) else Front(b.frames))
  }

  function ItemClosed(b: Build): Build {
    if b.frames == [] then b else
      var frame, rest := Last(b.frames), Front(b.frames);
      if !frame.Item? then b.(frames := rest)
      else if rest != [] && Last(rest).List? then
        b.(frames := Front(rest) + [Last(rest).(items := Last(rest).items + [Entry(frame.nodes)])])
      else b.(frames := PushAll(rest, frame.nodes))
  }

  function TrimBreaks(s: string): string {
    if s != "" && s[|s| - 1] == '\n' then TrimBreaks(s[..|s| - 1]) else s
  }

  function CodeClosed(b: Build): Build
    requires b.code.Some?
  {
    var code := TrimBreaks(b.code.value);
    b.(code := None, frames := if IsBlank(code) then b.frames else Push(b.frames, Code(code)))
  }

  function Step(b: Build, e: Event, cap: nat): Build {
    if b.code.Some? then
      match e
      case Written(text) => b.(code := Some(b.code.value + text))
      case EndCode => CodeClosed(b)
      case _ => b
    else
      match e
      case Written(text) => b.(inline := Some((if b.inline.Some? then b.inline.value else "") + text))
      case BreakRule => var t := Flushed(b); t.(frames := Push(t.frames, Rule))
      case TableText(text) => var t := Flushed(b); t.(frames := if IsBlank(text) then t.frames else Push(t.frames, Code(text)))
      case StartParagraph => Flushed(b).(inline := Some(""))
      case EndParagraph => Flushed(b)
      case StartCode => Flushed(b).(code := Some(""))
      case EndCode => b
      case StartQuote => Opened(Flushed(b), Quote([]), cap)
      case EndQuote => QuoteClosed(Flushed(b))
      case StartList(start) => Opened(Flushed(b), List(start, []), cap)
      case EndList => ListClosed(Flushed(b))
      case StartItem => var t := Flushed(b); t.(frames := t.frames + [Item([])])
      case EndItem => ItemClosed(Flushed(b))
  }

  function Built(events: seq<Event>, cap: nat): Build {
    if events == [] then EMPTY else Step(Built(Front(events), cap), Last(events), cap)
  }

  /** Close whatever is open, from the inside out. */
  function Unwound(frames: seq<Frame>): seq<Node>
    decreases |frames|
  {
    if frames == [] then []
    else if |frames| == 1 then (if frames[0].Root? then frames[0].nodes else [])
    else
      var rest := Front(frames);
      match Last(frames)
      case Quote(nodes) => Unwound(Push(rest, QuoteNode(nodes)))
      case List(start, items) => Unwound(Push(rest, ListNode(start, items)))
      case Item(nodes) => PushAllSize(rest, nodes); Unwound(PushAll(rest, nodes))
      case Root(nodes) => PushAllSize(rest, nodes); Unwound(PushAll(rest, nodes))
  }

  lemma {:induction false} PushAllSize(frames: seq<Frame>, nodes: seq<Node>)
    requires frames != []
    ensures |PushAll(frames, nodes)| == |frames|
  {
    if nodes != [] {
      PushAllSize(frames, Front(nodes));
    }
  }

  // ─── The builder ────────────────────────────────────────────────────────

  class Builder {
    var frames: seq<Frame>
    var containers: seq<bool>
    var kept: nat
    var inline: Option<string>
    var code: Option<string>

    constructor ()
      ensures Contents() == EMPTY
    {
      frames, containers, kept, inline, code := [Root([])], [], 0, None, None;
    }

    ghost function Contents(): Build
      reads this
    {
      Build(frames, containers, kept, inline, code)
    }

    /** Enters one more quote or list, marked to have a frame if the cap allows. */
    method OpenContainer() returns (keep: bool)
      modifies this`containers, this`kept
      ensures keep == (old(kept) < MAX_NESTING) && containers == old(containers) + [keep]
      ensures kept == if keep then old(kept) + 1 else old(kept)
    {
      keep := kept < MAX_NESTING;
      containers := containers + [keep];
      kept := kept + if keep then 1 else 0;
    }

    /** Takes the innermost mark off, and tells whether a frame goes with it. */
    method CloseContainer() returns (wasKept: bool)
      modifies this`containers, this`kept
      ensures wasKept == Keeps(old(Contents())) && Contents() == Closed(old(Contents()))
    {
      wasKept := false;
      if containers != [] {
        wasKept := containers[|containers| - 1];
        containers := containers[..|containers| - 1];
      }
      kept := if wasKept && kept > 0 then kept - 1 else kept;
    }

    method PushNode(node: Node)
      modifies this`frames
      ensures frames == Push(old(frames), node)
    {
      if frames == [] {
        frames := [Root([node])];
        return;
      }
      var last := frames[|frames| - 1];
      var front := frames[..|frames| - 1];
      match last
      case Root(nodes) => frames := front + [Root(nodes + [node])];
      case Quote(nodes) => frames := front + [Quote(nodes + [node])];
      case Item(nodes) => frames := front + [Item(nodes + [node])];
      case List(start, items) =>
        if items == [] {
          frames := front + [List(start, [Entry([node])])];
        } else {
          frames := front + [List(start, items[..|items| - 1] + [Entry(items[|items| - 1].nodes + [node])])];
        }
    }

    method PushNodes(nodes: seq<Node>)
      modifies this`frames
      ensures frames == PushAll(old(frames), nodes)
    {
      var k := 0;
      while k < |nodes|
        invariant 0 <= k <= |nodes| && frames == PushAll(old(frames), nodes[..k])
        modifies this`frames
      {
        assert nodes[..k + 1][..k] == nodes[..k];
        PushNode(nodes[k]);
        k := k + 1;
      }
      assert nodes[..k] == nodes;
    }

    method Flush()
      modifies this`frames, this`inline
      ensures Contents() == Flushed(old(Contents()))
    {
      if inline.Some? {
        var text := inline.value;
        inline := None;
        if text != "" {
          PushNode(Text(text));
        }
      }
    }

    method Open(frame: Frame)
      modifies this`frames, this`containers, this`kept, this`inline
      ensures Contents() == Opened(Flushed(old(Contents())), frame, MAX_NESTING)
    {
      Flush();
      var keep := OpenContainer();
      if keep {
        frames := frames + [frame];
      }
    }

    method EndQuoteNow()
      modifies this`frames, this`containers, this`kept, this`inline
      ensures Contents() == QuoteClosed(Flushed(old(Contents())))
    {
      Flush();
      var wasKept := CloseContainer();
      if wasKept && frames != [] {
        var frame := frames[|frames| - 1];
        frames := frames[..|frames| - 1];
        if frame.Quote? {
          PushNode(QuoteNode(frame.nodes));
        }
      }
    }

    method EndListNow()
      modifies this`frames, this`containers, this`kept, this`inline
      ensures Contents() == ListClosed(Flushed(old(Contents())))
    {
      Flush();
      var wasKept := CloseContainer();
      if wasKept && frames != [] {
        var frame := frames[|frames| - 1];
        frames := frames[..|frames| - 1];
        if frame.List? {
          PushNode(ListNode(frame.start, frame.items));
        }
      }
    }

    method EndItemNow()
      modifies this`frames, this`inline
      ensures Contents() == ItemClosed(Flushed(old(Contents())))
    {
      Flush();
      if frames == [] {
        return;
      }
      var frame := frames[|frames| - 1];
      frames := frames[..|frames| - 1];
      if frame.Item? {
        if frames != [] && frames[|frames| - 1].List? {
          var list := frames[|frames| - 1];
          frames := frames[..|frames| - 1] + [list.(items := list.items + [Entry(frame.nodes)])];
        } else {
          PushNodes(frame.nodes);
        }
      }
    }

    method EndCodeNow()
      requires code.Some?
      modifies this`frames, this`code
      ensures Contents() == CodeClosed(old(Contents()))
    {
      var text := TrimBreaks(code.value);
      code := None;
      if !IsBlank(text) {
        PushNode(Code(text));
      }
    }

    /** One event. */
    method Take(e: Event)
      modifies this
      ensures Contents() == Step(old(Contents()), e, MAX_NESTING)
    {
      if code.Some? {
        if e.Written? {
          code := Some(code.value + e.text);
        } else if e.EndCode? {
          EndCodeNow();
        }
        return;
      }
      match e
      case Written(text) => inline := Some((if inline.Some? then inline.value else "") + text);
      case BreakRule => Flush(); PushNode(Rule);
      case TableText(text) =>
        Flush();
        if !IsBlank(text) {
          PushNode(Code(text));
        }
      case StartParagraph => Flush(); inline := Some("");
      case EndParagraph => Flush();
      case StartCode => Flush(); code := Some("");
      case EndCode =>
      case StartQuote => Open(Quote([]));
      case EndQuote => EndQuoteNow();
      case StartList(start) => Open(List(start, []));
      case EndList => EndListNow();
      case StartItem => Flush(); frames := frames + [Item([])];
      case EndItem => EndItemNow();
    }

    /** The tree, whatever was left open closed. */
    method Finish() returns (nodes: seq<Node>)
      modifies this`frames, this`inline
      ensures nodes == Unwound(Flushed(old(Contents())).frames)
    {
      Flush();
      ghost var all := Unwound(frames);
      while |frames| > 1
        invariant Unwound(frames) == all
        decreases |frames|
        modifies this`frames
      {
        var frame := frames[|frames| - 1];
        frames := frames[..|frames| - 1];
        match frame
        case Quote(nodes) => PushNode(QuoteNode(nodes));
        case List(start, items) => PushNode(ListNode(start, items));
        case Item(nodes) => PushAllSize(frames, nodes); PushNodes(nodes);
        case Root(nodes) => PushAllSize(frames, nodes); PushNodes(nodes);
      }
      nodes := if frames != [] && frames[0].Root? then frames[0].nodes else [];
    }
  }
}
