/**
 What splitting keeps, and that its packing is the tightest there is.
 */
module SplitterResults {
  import opened Wrappers
  import opened Texts
  import opened TextLines
  import opened Splitter

  // ─── Packing keeps the pieces ───────────────────────────────────────────

  ghost predicate SepsOk(ps: seq<Piece>) { forall p :: p in ps ==> p.sep == "\n" || p.sep == "\n\n" }

  function PieceTokens(ps: seq<Piece>): seq<string> {
    if ps == [] then [] else PieceTokens(ps[..|ps| - 1]) + Tokens(ps[|ps| - 1].text)
  }

  lemma TokensOfJoined(a: string, sep: string, b: string)
    requires sep == "\n" || sep == "\n\n"
    ensures Tokens(a + sep + b) == Tokens(a) + Tokens(b)
  {
    if sep == "\n" {
      TokensAtGap(a, '\n', b, "");
      assert a + ['\n'] + b == a + sep + b;
    } else {
      TokensAtBlankLine(a, b);
    }
  }

  lemma JoinedTokens(parts: seq<string>, sep: string, b: string)
    requires parts != [] && (sep == "\n" || sep == "\n\n")
    ensures AllTokens(parts[..|parts| - 1] + [parts[|parts| - 1] + sep + b]) == AllTokens(parts) + Tokens(b)
  {
    var front, last := parts[..|parts| - 1], parts[|parts| - 1];
    TokensOfJoined(last, sep, b);
    assert (front + [last + sep + b])[..|front|] == front;
  }

  /** The messages hold the pieces' tokens, in order. */
  lemma {:induction false} PackedTokens(ps: seq<Piece>, max: nat)
    requires SepsOk(ps)
    ensures AllTokens(Packed(ps, max)) == PieceTokens(ps)
  {
    if ps != [] {
      var before, p := ps[..|ps| - 1], ps[|ps| - 1];
      assert p in ps;
      assert forall q :: q in before ==> q in ps;
      PackedTokens(before, max);
      var front := Packed(before, max);
      if front != [] {
        JoinedTokens(front, p.sep, p.text);
      }
      assert (front + [p.text])[..|front|] == front;
    }
  }

  lemma NotBlankJoined(a: string, sep: string, b: string)
    requires !IsBlank(a)
    ensures !IsBlank(a + sep + b)
  {
    var c :| c in a && !IsWhitespace(c);
    assert c in a + sep + b;
  }

  lemma SepUnitsOf(sep: string)
    requires sep == "\n" || sep == "\n\n"
    ensures Units(sep) == |sep|
  {
    SepUnits(Line);
    SepUnits(Paragraph);
  }

  /** Messages of pieces that fit fit, and none is blank. */
  lemma {:induction false} PackedFit(ps: seq<Piece>, max: nat)
    requires SepsOk(ps) && forall p :: p in ps ==> Fits(p.text, max) && !IsBlank(p.text)
    ensures AllFit(Packed(ps, max), max) && NoneBlank(Packed(ps, max))
  {
    if ps != [] {
      var before, p := ps[..|ps| - 1], ps[|ps| - 1];
      assert p in ps;
      assert forall q :: q in before ==> q in ps;
      PackedFit(before, max);
      var front := Packed(before, max);
      if front != [] {
        var last := front[|front| - 1];
        assert last in front;
        UnitsJoined(last, p.sep, p.text);
        SepUnitsOf(p.sep);
        NotBlankJoined(last, p.sep, p.text);
      }
    }
  }

  // ─── The tightest packing ───────────────────────────────────────────────

  /** The messages when piece `k` joins the last one exactly if `joined[k]`. */
  function Grouped(ps: seq<Piece>, joined: seq<bool>): seq<string>
    requires |joined| == |ps|
  {
    if ps == [] then [] else
      var n := |ps| - 1;
      Onto(Grouped(ps[..n], joined[..n]), ps[n], joined[n])
  }

  /** A grouping of whole pieces in order, each message within the limit. */
  ghost predicate IsGrouping(ps: seq<Piece>, joined: seq<bool>, max: nat) {
    && |joined| == |ps| && (forall k :: 0 <= k < |ps| && joined[k] ==> ps[k].joins)
    && forall m :: m in Grouped(ps, joined) ==> Units(m) <= max
  }

  /** Where packing joins. */
  function Joins(ps: seq<Piece>, max: nat): (joined: seq<bool>)
    ensures |joined| == |ps|
  {
    if ps == [] then [] else
      Joins(ps[..|ps| - 1], max) + [CanJoin(Packed(ps[..|ps| - 1], max), ps[|ps| - 1], max)]
  }

  lemma {:induction false} JoinsMayJoin(ps: seq<Piece>, max: nat, k: nat)
    requires k < |ps| && Joins(ps, max)[k]
    ensures ps[k].joins
  {
    if k < |ps| - 1 {
      JoinsMayJoin(ps[..|ps| - 1], max, k);
    }
  }

  lemma {:induction false} PackedIsGrouped(ps: seq<Piece>, max: nat)
    ensures Packed(ps, max) == Grouped(ps, Joins(ps, max))
  {
    if ps != [] {
      var n := |ps| - 1;
      PackedIsGrouped(ps[..n], max);
      var joins := Joins(ps, max);
      assert joins[..n] == Joins(ps[..n], max);
      assert joins[n] == CanJoin(Packed(ps[..n], max), ps[n], max);
    }
  }

  lemma PrefixIsGrouping(ps: seq<Piece>, joined: seq<bool>, max: nat)
    requires ps != [] && IsGrouping(ps, joined, max)
    ensures IsGrouping(ps[..|ps| - 1], joined[..|ps| - 1], max)
  {
    var n := |ps| - 1;
    var front, all := Grouped(ps[..n], joined[..n]), Grouped(ps, joined);
    forall m | m in front
      ensures Units(m) <= max
    {
      var k :| 0 <= k < |front| && front[k] == m;
      if k < |front| - 1 || !joined[n] {
        assert all[k] == m;
      } else {
        assert all[k] == m + ps[n].sep + ps[n].text;
        UnitsJoined(m, ps[n].sep, ps[n].text);
      }
      assert all[k] in all;
    }
  }

  /** Fewer messages, or as many and the last no longer. */
  ghost predicate Ahead(p: seq<string>, g: seq<string>) {
    |p| < |g| || (|p| == |g| && (p != [] ==> Units(p[|p| - 1]) <= Units(g[|g| - 1])))
  }

  lemma StaysAhead(p: seq<string>, g: seq<string>, next: Piece, join: bool, max: nat)
    requires Ahead(p, g) && (join ==> next.joins) && Units(next.sep) == |next.sep|
    requires var more := Onto(g, next, join); Units(more[|more| - 1]) <= max
    ensures Ahead(Onto(p, next, CanJoin(p, next, max)), Onto(g, next, join))
  {
    if p != [] {
      UnitsJoined(p[|p| - 1], next.sep, next.text);
    }
    if g != [] {
      UnitsJoined(g[|g| - 1], next.sep, next.text);
    }
  }

  /** Packing never has more messages than another grouping and, with as many,
      its last is no longer. */
  lemma {:induction false} GreedyStaysAhead(ps: seq<Piece>, joined: seq<bool>, max: nat)
    requires SepsOk(ps) && IsGrouping(ps, joined, max)
    ensures Ahead(Packed(ps, max), Grouped(ps, joined))
  {
    if ps != [] {
      var n := |ps| - 1;
      PrefixIsGrouping(ps, joined, max);
      assert forall q :: q in ps[..n] ==> q in ps;
      GreedyStaysAhead(ps[..n], joined[..n], max);
      assert ps[n] in ps;
      SepUnitsOf(ps[n].sep);
      var all := Grouped(ps, joined);
      assert all[|all| - 1] in all;
      StaysAhead(Packed(ps[..n], max), Grouped(ps[..n], joined[..n]), ps[n], joined[n], max);
    }
  }

  /** Packing pieces that each fit is a grouping of them, and no grouping has
      fewer messages. */
  lemma PackingIsTightest(ps: seq<Piece>, max: nat)
    requires SepsOk(ps) && forall p :: p in ps ==> Units(p.text) <= max && !IsBlank(p.text)
    ensures IsGrouping(ps, Joins(ps, max), max) && Packed(ps, max) == Grouped(ps, Joins(ps, max))
    ensures forall joined :: IsGrouping(ps, joined, max) ==> |Packed(ps, max)| <= |Grouped(ps, joined)|
  {
    PackedIsGrouped(ps, max);
    PackedWithin(ps, max);
    forall k | 0 <= k < |ps| && Joins(ps, max)[k]
      ensures ps[k].joins
    {
      JoinsMayJoin(ps, max, k);
    }
    forall joined | IsGrouping(ps, joined, max)
      ensures |Packed(ps, max)| <= |Grouped(ps, joined)|
    {
      GreedyStaysAhead(ps, joined, max);
    }
  }

  lemma {:induction false} PackedWithin(ps: seq<Piece>, max: nat)
    requires SepsOk(ps) && forall p :: p in ps ==> Units(p.text) <= max
    ensures forall m :: m in Packed(ps, max) ==> Units(m) <= max
  {
    if ps != [] {
      var before, p := ps[..|ps| - 1], ps[|ps| - 1];
      assert p in ps;
      assert forall q :: q in before ==> q in ps;
      PackedWithin(before, max);
      var front := Packed(before, max);
      if front != [] {
        UnitsJoined(front[|front| - 1], p.sep, p.text);
        SepUnitsOf(p.sep);
      }
    }
  }

  /** Blocks as whole pieces: each may join the message before it. */
  function Whole(blocks: seq<Block>): seq<Piece> {
    if blocks == [] then [] else
      var b := blocks[|blocks| - 1];
      Whole(blocks[..|blocks| - 1]) + [Piece(b.text, Text(b.sep), true)]
  }

  lemma {:induction false} FittingStayWhole(blocks: seq<Block>, max: nat, cuts: seq<seq<string>>, plains: seq<seq<string>>)
    requires CutsOk(blocks, max, cuts, plains) && forall b :: b in blocks ==> Units(b.text) <= max
    ensures Flat(blocks, cuts) == Whole(blocks)
  {
    if blocks != [] {
      var n := |blocks| - 1;
      assert blocks[n] in blocks && forall b :: b in blocks[..n] ==> b in blocks;
      FittingStayWhole(blocks[..n], max, cuts[..n], plains[..n]);
      assert cuts[n] == [blocks[n].text];
      assert PiecesOf(cuts[n][..0], blocks[n].sep) == [];
    }
  }

  lemma {:induction false} WholePieces(blocks: seq<Block>)
    ensures SepsOk(Whole(blocks)) && forall p :: p in Whole(blocks) ==> exists b :: b in blocks && b.text == p.text
  {
    if blocks != [] {
      var front, last := blocks[..|blocks| - 1], blocks[|blocks| - 1];
      WholePieces(front);
      assert last in blocks;
      forall p | p in Whole(front)
        ensures exists b :: b in blocks && b.text == p.text
      {
        var b :| b in front && b.text == p.text;
        assert b in blocks;
      }
    }
  }

  /** Blocks that each fit are packed whole, and no order-preserving grouping of
      them into messages that fit has fewer messages. */
  lemma FittingBlocksAreTightest(blocks: seq<Block>, max: nat, cuts: seq<seq<string>>, plains: seq<seq<string>>, parts: seq<string>)
    requires PackedSo(blocks, max, cuts, plains, parts)
    requires forall b :: b in blocks ==> Units(b.text) <= max && !IsBlank(b.text)
    ensures |Joins(Whole(blocks), max)| == |Whole(blocks)| && parts == Grouped(Whole(blocks), Joins(Whole(blocks), max))
    ensures IsGrouping(Whole(blocks), Joins(Whole(blocks), max), max)
    ensures forall joined :: IsGrouping(Whole(blocks), joined, max) ==> |parts| <= |Grouped(Whole(blocks), joined)|
  {
    FittingStayWhole(blocks, max, cuts, plains);
    WholePieces(blocks);
    PackingIsTightest(Whole(blocks), max);
  }

  /** A code block cut into fenced pieces keeps its ink, and each piece is
      within the limit, fences and all. */
  lemma CodeIsKept(block: Block, max: nat, pieces: seq<string>, plain: seq<string>)
    requires block.code.Some? && max >= FENCES + 2 && CutOk(block, max, pieces, plain)
    ensures pieces == RefencedAll(plain) && InkOfAll(plain) == Ink(block.code.value)
    ensures forall p :: p in pieces ==> Units(p) <= max
  {
    var code := block.code.value;
    InkOfAllTokens(plain);
    InkOfSolid(AllTokens(plain));
    InkOfSolid(Break(Tokens(code), max - FENCES));
    ConcatOfBreak(Tokens(code), max - FENCES);
    InkOfTokens(code, "");
  }

  /** A fence begins at that place. */
  predicate FenceAt(code: string, k: nat) { k + 3 <= |code| && code[k..k + 3] == "```" }

  lemma {:induction false} FenceSomewhere(code: string)
    ensures HasFence(code) <==> exists k: nat :: FenceAt(code, k)
  {
    if |code| >= 3 {
      FenceSomewhere(code[1..]);
      forall k: nat
        ensures FenceAt(code[1..], k) <==> FenceAt(code, k + 1)
      {
        if k + 3 <= |code| - 1 {
          assert code[1..][k..k + 3] == code[k + 1..k + 4];
        }
      }
      assert code[0..3] == code[..3];
      if k: nat :| FenceAt(code, k) {
        assert k > 0 ==> FenceAt(code[1..], k - 1);
      }
      if !FenceAt(code, 0) && HasFence(code) {
        var j: nat :| FenceAt(code[1..], j);
        assert FenceAt(code, j + 1);
      }
    }
  }

  /** A piece of code is fenced again exactly if the fences around it are the only
      ones: none is in it, and it neither begins nor ends with a backtick. */
  lemma FencedExactly(piece: string)
    ensures (forall k: nat :: !FenceAt(piece, k)) && (piece != "" ==> piece[0] != '`' && piece[|piece| - 1] != '`') ==>
              Refenced(piece) == "```" + piece + "```"
    ensures (exists k: nat :: FenceAt(piece, k)) || (piece != "" && (piece[0] == '`' || piece[|piece| - 1] == '`')) ==>
              Refenced(piece) == piece
  {
    FenceSomewhere(piece);
  }

  // ─── Splitting plain text ───────────────────────────────────────────────

  /** Breaking blank tokens leaves blank tokens. */
  lemma {:induction false} ChunksOfBlank(rest: string, cur: string, max: nat)
    requires IsBlank(cur) && IsBlank(rest)
    ensures forall c :: c in Chunks(rest, cur, max) ==> IsBlank(c)
    decreases |rest|
  {
    if rest != "" {
      assert rest[0] in rest;
      if cur != "" && Units(cur) + Width(rest[0]) > max {
        ChunksOfBlank(rest[1..], [rest[0]], max);
      } else {
        ChunksOfBlank(rest[1..], cur + [rest[0]], max);
      }
    }
  }

  lemma {:induction false} BreakOfBlank(ts: seq<string>, max: nat)
    requires forall t :: t in ts ==> IsBlank(t)
    ensures Solid(Break(ts, max)) == []
  {
    if ts != [] {
      var front, last := ts[..|ts| - 1], ts[|ts| - 1];
      assert last in ts;
      assert forall t :: t in front ==> t in ts;
      BreakOfBlank(front, max);
      ChunksOfBlank(last, "", max);
      SolidOfBlank(BreakOne(last, max));
      SolidOfSum(Break(front, max), BreakOne(last, max));
    }
  }

  function Paragraphs(texts: seq<string>): seq<Block> {
    seq(|texts|, i requires 0 <= i < |texts| => Block(texts[i], Paragraph, None))
  }

  /** Leaving out blank paragraphs leaves out blank tokens only. */
  lemma {:induction false} KeptBroken(ps: seq<string>, max: nat)
    ensures Solid(Break(AllTokens(Kept(ps)), max)) == Solid(Break(AllTokens(ps), max))
  {
    if ps != [] {
      var front, last := ps[..|ps| - 1], ps[|ps| - 1];
      KeptBroken(front, max);
      BreakOfSum(AllTokens(front), Tokens(last), max);
      SolidOfSum(Break(AllTokens(front), max), Break(Tokens(last), max));
      if IsBlank(last) {
        forall t | t in Tokens(last)
          ensures IsBlank(t)
        {
          TokenIsSmall(last, "", t);
        }
        BreakOfBlank(Tokens(last), max);
        assert Kept(ps) == Kept(front);
      } else {
        assert (Kept(front) + [last])[..|Kept(front)|] == Kept(front);
        BreakOfSum(AllTokens(Kept(front)), Tokens(last), max);
        SolidOfSum(Break(AllTokens(Kept(front)), max), Break(Tokens(last), max));
      }
    }
  }

  lemma {:induction false} PiecesOfTokens(pieces: seq<string>, sep: Sep)
    ensures PieceTokens(PiecesOf(pieces, sep)) == AllTokens(pieces)
  {
    if pieces != [] {
      var front := pieces[..|pieces| - 1];
      PiecesOfTokens(front, sep);
    }
  }

  lemma {:induction false} PieceTokensOfSum(a: seq<Piece>, b: seq<Piece>)
    ensures PieceTokens(a + b) == PieceTokens(a) + PieceTokens(b)
  {
    if b == [] {
      assert a + b == a;
    } else {
      assert (a + b)[..|a + b| - 1] == a + b[..|b| - 1];
      PieceTokensOfSum(a, b[..|b| - 1]);
    }
  }

  /** A block's pieces hold its own tokens, broken where they must be. */
  lemma PiecesHold(text: string, max: nat, pieces: seq<string>, plain: seq<string>)
    requires PiecesOk(Block(text, Paragraph, None), max, pieces, plain) && !IsBlank(text)
    ensures Solid(AllTokens(pieces)) == Solid(Break(Tokens(text), max))
    ensures AllFit(pieces, max) && NoneBlank(pieces)
  {
    if Units(text) <= max {
      forall t | t in Tokens(text)
        ensures Units(t) <= max
      {
        TokenIsSmall(text, "", t);
      }
      BreakOfFitting(Tokens(text), max);
      AllTokensOfOne(text);
    }
  }

  /** Each piece is a part that fits, with a gap before it. */
  ghost predicate PiecesFit(ps: seq<Piece>, max: nat) {
    SepsOk(ps) && forall p :: p in ps ==> Fits(p.text, max) && !IsBlank(p.text)
  }

  lemma {:induction false} PiecesOfFit(pieces: seq<string>, sep: Sep, max: nat)
    requires AllFit(pieces, max) && NoneBlank(pieces)
    ensures PiecesFit(PiecesOf(pieces, sep), max)
  {
    if pieces != [] {
      assert pieces[|pieces| - 1] in pieces && forall p :: p in pieces[..|pieces| - 1] ==> p in pieces;
      PiecesOfFit(pieces[..|pieces| - 1], sep, max);
    }
  }

  lemma {:induction false} FlatHolds(texts: seq<string>, max: nat, cuts: seq<seq<string>>, plains: seq<seq<string>>)
    requires CutsOk(Paragraphs(texts), max, cuts, plains) && NoneBlank(texts)
    ensures Solid(PieceTokens(Flat(Paragraphs(texts), cuts))) == Solid(Break(AllTokens(texts), max))
    ensures PiecesFit(Flat(Paragraphs(texts), cuts), max)
  {
    if texts == [] {
      assert Paragraphs(texts) == [];
    } else {
      var n := |texts| - 1;
      var front, last := texts[..n], texts[n];
      assert Paragraphs(texts)[..n] == Paragraphs(front);
      assert last in texts && forall t :: t in front ==> t in texts;
      assert Paragraphs(texts)[n] == Block(last, Paragraph, None);
      FlatHolds(front, max, cuts[..n], plains[..n]);
      PiecesHold(last, max, cuts[n], plains[n]);
      PiecesOfFit(cuts[n], Paragraph, max);
      FlatMoreHolds(Flat(Paragraphs(front), cuts[..n]), cuts[n], AllTokens(front), Tokens(last), max);
    }
  }

  lemma FlatMoreHolds(flat: seq<Piece>, pieces: seq<string>, ts: seq<string>, more: seq<string>, max: nat)
    requires Solid(PieceTokens(flat)) == Solid(Break(ts, max))
    requires Solid(AllTokens(pieces)) == Solid(Break(more, max))
    ensures Solid(PieceTokens(flat + PiecesOf(pieces, Paragraph))) == Solid(Break(ts + more, max))
  {
    PiecesOfTokens(pieces, Paragraph);
    PieceTokensOfSum(flat, PiecesOf(pieces, Paragraph));
    SolidOfSum(PieceTokens(flat), AllTokens(pieces));
    BreakOfSum(ts, more, max);
    SolidOfSum(Break(ts, max), Break(more, max));
  }

  // ─── Lines of the messages ──────────────────────────────────────────────

  function PieceLines(ps: seq<Piece>): seq<string> {
    if ps == [] then [] else PieceLines(ps[..|ps| - 1]) + SplitOn(ps[|ps| - 1].text, '\n')
  }

  lemma {:induction false} PiecesOfLines(pieces: seq<string>, sep: Sep)
    ensures PieceLines(PiecesOf(pieces, sep)) == LinesIn(pieces)
  {
    if pieces != [] {
      PiecesOfLines(pieces[..|pieces| - 1], sep);
    }
  }

  lemma {:induction false} PieceLinesOfSum(a: seq<Piece>, b: seq<Piece>)
    ensures PieceLines(a + b) == PieceLines(a) + PieceLines(b)
  {
    if b == [] {
      assert a + b == a;
    } else {
      assert (a + b)[..|a + b| - 1] == a + b[..|b| - 1];
      PieceLinesOfSum(a, b[..|b| - 1]);
    }
  }

  /** A piece after a line break, or a blank line, brings its lines whole. */
  lemma LinesAfterSep(a: string, sep: string, b: string, l: string)
    requires (sep == "\n" || sep == "\n\n") && (l in SplitOn(a, '\n') || l in SplitOn(b, '\n'))
    ensures l in SplitOn(a + sep + b, '\n')
  {
    LinesJoined(a, b);
    if sep == "\n\n" {
      LinesJoined(a, "\n" + b);
      LinesJoined("", b);
      assert "" + "\n" + b == "\n" + b && a + "\n" + ("\n" + b) == a + sep + b;
    }
  }

  lemma OntoLines(parts: seq<string>, p: Piece, join: bool, l: string)
    requires p.sep == "\n" || p.sep == "\n\n"
    requires l in LinesIn(parts) || l in SplitOn(p.text, '\n')
    ensures l in LinesIn(Onto(parts, p, join))
  {
    if join && parts != [] {
      var front, last := parts[..|parts| - 1], parts[|parts| - 1];
      LinesInMore(front, last + p.sep + p.text);
      if l !in LinesIn(front) {
        LinesAfterSep(last, p.sep, p.text, l);
      }
    } else {
      LinesInMore(parts, p.text);
    }
  }

  /** Packing keeps every line of the pieces. */
  lemma {:induction false} PackedLines(ps: seq<Piece>, max: nat, l: string)
    requires SepsOk(ps) && l in PieceLines(ps)
    ensures l in LinesIn(Packed(ps, max))
  {
    var front, p := ps[..|ps| - 1], ps[|ps| - 1];
    assert p in ps;
    if l in PieceLines(front) {
      PackedLines(front, max, l);
    }
    OntoLines(Packed(front, max), p, CanJoin(Packed(front, max), p, max), l);
  }

  lemma BlockLines(text: string, max: nat, pieces: seq<string>, plain: seq<string>)
    requires PiecesOk(Block(text, Paragraph, None), max, pieces, plain)
    ensures KeepsLines(text, max, pieces)
  {
    if Units(text) <= max {
      LinesInMore([], text);
      assert [] + [text] == [text];
    }
  }

  lemma {:induction false} FlatLines(texts: seq<string>, max: nat, cuts: seq<seq<string>>, plains: seq<seq<string>>, l: string)
    requires CutsOk(Paragraphs(texts), max, cuts, plains) && l in LinesIn(texts) && Units(l) <= max && !IsBlank(l)
    ensures l in PieceLines(Flat(Paragraphs(texts), cuts))
  {
    var n := |texts| - 1;
    var front, last := texts[..n], texts[n];
    assert Paragraphs(texts)[..n] == Paragraphs(front) && Paragraphs(texts)[n] == Block(last, Paragraph, None);
    PieceLinesOfSum(Flat(Paragraphs(front), cuts[..n]), PiecesOf(cuts[n], Paragraph));
    PiecesOfLines(cuts[n], Paragraph);
    if l in LinesIn(front) {
      FlatLines(front, max, cuts[..n], plains[..n], l);
    } else {
      BlockLines(last, max, cuts[n], plains[n]);
    }
  }

  /** The paragraphs hold every line that is not blank. */
  lemma {:induction false} ParagraphLines(s: string, cur: string, l: string)
    requires l in SplitOn(cur + s, '\n') && !IsBlank(l)
    ensures l in LinesIn(ParagraphsFrom(s, cur))
    decreases |s|
  {
    if s == "" {
      assert cur + s == cur;
      LinesInMore([], cur);
      assert [] + [cur] == [cur];
    } else if |s| >= 2 && s[0] == '\n' && s[1] == '\n' {
      var rest := ParagraphsFrom(s[2..], "");
      LinesInSum([cur], rest);
      LinesInMore([], cur);
      assert [] + [cur] == [cur] && "" + s[2..] == s[2..];
      LinesJoined(cur, "\n" + s[2..]);
      LinesJoined("", s[2..]);
      assert cur + "\n" + ("\n" + s[2..]) == cur + s && "" + "\n" + s[2..] == "\n" + s[2..];
      if l in SplitOn(s[2..], '\n') {
        ParagraphLines(s[2..], "", l);
      }
    } else {
      assert cur + [s[0]] + s[1..] == cur + s;
      ParagraphLines(s[1..], cur + [s[0]], l);
    }
  }

  /** So the messages of a text hold each of its lines that fits, whole. */
  lemma MessageLines(text: string, max: nat, cuts: seq<seq<string>>, plains: seq<seq<string>>)
    requires CutsOk(Paragraphs(Kept(ParagraphsFrom(text, ""))), max, cuts, plains)
    requires SepsOk(Flat(Paragraphs(Kept(ParagraphsFrom(text, ""))), cuts))
    ensures KeepsLines(text, max, Packed(Flat(Paragraphs(Kept(ParagraphsFrom(text, ""))), cuts), max))
  {
    var texts := ParagraphsFrom(text, "");
    var flat := Flat(Paragraphs(Kept(texts)), cuts);
    assert "" + text == text;
    forall l | l in SplitOn(text, '\n') && Units(l) <= max && !IsBlank(l)
      ensures l in LinesIn(Packed(flat, max))
    {
      ParagraphLines(text, "", l);
      KeptLines(texts, l);
      FlatLines(Kept(texts), max, cuts, plains, l);
      PackedLines(flat, max, l);
    }
  }

  /** The blocks of a text: its paragraphs that are not blank. */
  method BlocksOf(text: string) returns (blocks: seq<Block>)
    ensures blocks == Paragraphs(Kept(ParagraphsFrom(text, "")))
  {
    var paragraphs, k := ParagraphsFrom(text, ""), 0;
    blocks := [];
    while k < |paragraphs|
      invariant 0 <= k <= |paragraphs| && blocks == Paragraphs(Kept(paragraphs[..k]))
    {
      assert paragraphs[..k + 1][..k] == paragraphs[..k];
      if !IsBlank(paragraphs[k]) {
        blocks := blocks + [Block(paragraphs[k], Paragraph, None)];
      }
      k := k + 1;
    }
    assert paragraphs[..k] == paragraphs;
  }

  /** What every split promises of its parts: none blank, each within the limit
      (or one character wider than it), holding the text's tokens in order,
      each whole unless it is longer than the limit itself. */
  ghost predicate SplitOk(text: string, max: nat, parts: seq<string>) {
    && AllFit(parts, max) && NoneBlank(parts)
    && Solid(AllTokens(parts)) == Solid(Break(Tokens(text), max))
  }

  /** The whole way from a text to messages that fit, as the program goes it; a
      line that fits is a line of some message. */
  method Split(text: string, maxChars: nat) returns (parts: seq<string>)
    ensures SplitOk(text, if maxChars == 0 then 1 else maxChars, parts)
    ensures KeepsLines(text, if maxChars == 0 then 1 else maxChars, parts)
  {
    var max := if maxChars == 0 then 1 else maxChars;
    var blocks := BlocksOf(text);
    ghost var texts := Kept(ParagraphsFrom(text, ""));
    KeptIsPart(ParagraphsFrom(text, ""));
    var cuts, plains;
    parts, cuts, plains := Pack(blocks, max);
    ghost var flat := Flat(blocks, cuts);
    FlatHolds(texts, max, cuts, plains);
    PackedTokens(flat, max);
    PackedFit(flat, max);
    MessageLines(text, max, cuts, plains);
    KeptBroken(ParagraphsFrom(text, ""), max);
    ParagraphTokens(text, "");
    assert "" + text == text;
  }

  /** So, whatever the text, its characters other than white space are those of
      the parts, in order; and under a limit of at least two units every part
      is within it. */
  lemma NothingButSpaceIsLost(text: string, max: nat, parts: seq<string>)
    requires SplitOk(text, max, parts)
    ensures InkOfAll(parts) == Ink(text)
    ensures max >= 2 ==> forall p :: p in parts ==> Units(p) <= max
  {
    InkOfAllTokens(parts);
    InkOfSolid(AllTokens(parts));
    InkOfSolid(Break(Tokens(text), max));
    ConcatOfBreak(Tokens(text), max);
    InkOfTokens(text, "");
    forall p | p in parts && max >= 2
      ensures Units(p) <= max
    {
      UnitsAtLeast(p);
    }
  }

  /** And a word between spaces that fits the limit is whole in some part. */
  lemma FittingWordIsWhole(text: string, max: nat, parts: seq<string>, word: string)
    requires SplitOk(text, max, parts) && word in Tokens(text) && !IsBlank(word) && Units(word) <= max
    ensures exists p :: p in parts && word in Tokens(p)
  {
    BreakKeeps(Tokens(text), max, word);
    SolidKeeps(Break(Tokens(text), max), word);
    SolidComesFrom(AllTokens(parts), word);
    TokenIsSomewhere(parts, word);
  }

  lemma {:induction false} BreakKeeps(ts: seq<string>, max: nat, word: string)
    requires word in ts && Units(word) <= max
    ensures word in Break(ts, max)
  {
    var front, last := ts[..|ts| - 1], ts[|ts| - 1];
    if word == last {
      assert BreakOne(word, max) == [word];
    } else {
      BreakKeeps(front, max, word);
    }
  }

  lemma {:induction false} SolidKeeps(ts: seq<string>, word: string)
    requires word in ts && !IsBlank(word)
    ensures word in Solid(ts)
  {
    if word != ts[|ts| - 1] {
      SolidKeeps(ts[..|ts| - 1], word);
    }
  }

  lemma {:induction false} SolidComesFrom(ts: seq<string>, word: string)
    requires word in Solid(ts)
    ensures word in ts
  {
    if word in Solid(ts[..|ts| - 1]) {
      SolidComesFrom(ts[..|ts| - 1], word);
    }
  }

  lemma {:induction false} TokenIsSomewhere(parts: seq<string>, word: string)
    requires word in AllTokens(parts)
    ensures exists p :: p in parts && word in Tokens(p)
  {
    var last := parts[|parts| - 1];
    assert last in parts;
    if word !in Tokens(last) {
      TokenIsSomewhere(parts[..|parts| - 1], word);
    }
  }
}
