/**
 Splitting a long text into messages: whole blocks while they fit, then lines,
 then words, then characters.
 */
module Splitter {
  import opened Wrappers
  import opened Texts
  import opened TextLines

  const FENCE := "```"
  const FENCES := 6

  datatype Sep = Paragraph | Line

  /** A unit of packing; `code` is a code block's content. */
  datatype Block = Block(text: string, sep: Sep, code: Option<string>)

  function Text(sep: Sep): string { if sep.Paragraph? then "\n\n" else "\n" }

  function Fenced(code: string): string { FENCE + code + FENCE }

  predicate HasFence(code: string) { |code| >= 3 && (code[..3] == FENCE || HasFence(code[1..])) }

  /** A fence around `code` would end too early, or not end. */
  predicate Unfenceable(code: string) {
    HasFence(code) || (code != "" && (code[0] == '`' || code[|code| - 1] == '`'))
  }

  function Refenced(piece: string): string { if Unfenceable(piece) then piece else Fenced(piece) }

  /** Every part is within the limit, or one character wider than it. */
  ghost predicate AllFit(parts: seq<string>, max: nat) { forall p :: p in parts ==> Fits(p, max) }

  ghost predicate AllWithin(parts: seq<string>, max: nat) { forall p :: p in parts ==> Units(p) <= max }

  ghost predicate NoneBlank(parts: seq<string>) { forall p :: p in parts ==> !IsBlank(p) }

  lemma UnitsOfOne(a: char)
    ensures Units([a]) == Width(a)
  {
    assert [a][..0] == [];
  }

  lemma UnitsOfThree(a: char, b: char, c: char)
    ensures Units([a, b, c]) == Width(a) + Width(b) + Width(c)
  {
    assert [a, b, c] == [a] + [b] + [c];
    UnitsJoined([a], [b], [c]);
    UnitsOfOne(a);
    UnitsOfOne(b);
    UnitsOfOne(c);
  }

  lemma FencedUnits(code: string)
    ensures Units(Fenced(code)) == Units(code) + FENCES && !IsBlank(Fenced(code))
  {
    var fence := FENCE;
    UnitsOfThree('`', '`', '`');
    assert fence == ['`', '`', '`'];
    UnitsJoined(fence, code, fence);
    assert Units(fence) == 3;
    var fenced := Fenced(code);
    assert fenced == fence + code + fence;
    assert fenced[0] == fence[0];
    assert fenced[0] in fenced && !IsWhitespace(fenced[0]);
  }

  lemma UnitsJoined(a: string, sep: string, b: string)
    ensures Units(a + sep + b) == Units(a) + Units(sep) + Units(b)
  {
    UnitsOfSum(a + sep, b);
    UnitsOfSum(a, sep);
  }

  // ─── Words ──────────────────────────────────────────────────────────────

  lemma {:induction false} TokensOfUnbroken(ps: seq<string>)
    requires forall p :: p in ps ==> p != "" && Unbroken(p)
    ensures AllTokens(ps) == ps
  {
    if ps != [] {
      var front, last := ps[..|ps| - 1], ps[|ps| - 1];
      assert last in ps && forall p :: p in front ==> p in ps;
      TokensOfUnbroken(front);
      OneToken(last);
      assert front + [last] == ps;
    }
  }

  lemma OneToken(p: string)
    requires p != "" && Unbroken(p)
    ensures Tokens(p) == [p]
  {
    TokensUnbroken(p, "");
    assert "" + p == p;
  }

  lemma {:induction false} ChunksUnbroken(rest: string, cur: string, max: nat)
    requires Unbroken(cur) && Unbroken(rest)
    ensures forall c :: c in Chunks(rest, cur, max) ==> Unbroken(c)
    decreases |rest|
  {
    if rest != "" {
      assert rest[0] in rest;
      if cur != "" && Units(cur) + Width(rest[0]) > max {
        ChunksUnbroken(rest[1..], [rest[0]], max);
      } else {
        ChunksUnbroken(rest[1..], cur + [rest[0]], max);
      }
    }
  }

  /** A word longer than the limit, between characters, each chunk as full as can be. */
  method CutWord(word: string, max: nat) returns (pieces: seq<string>)
    ensures pieces == Chunks(word, "", max) && AllFull(pieces, max)
  {
    ChunksAreFull(word, "", max);
    pieces := [];
    var chunk, chunkLength, i := "", 0, 0;
    while i < |word|
      invariant 0 <= i <= |word| && chunkLength == Units(chunk)
      invariant chunkLength > 0 <==> chunk != ""
      invariant pieces + Chunks(word[i..], chunk, max) == Chunks(word, "", max)
    {
      var width := Width(word[i]);
      assert word[i..][0] == word[i] && word[i..][1..] == word[i + 1..];
      if chunkLength > 0 && chunkLength + width > max {
        pieces := pieces + [chunk];
        chunk, chunkLength := "", 0;
      }
      assert (chunk + [word[i]])[..|chunk|] == chunk;
      chunk, chunkLength := chunk + [word[i]], chunkLength + width;
      i := i + 1;
    }
    if chunkLength > 0 {
      pieces := pieces + [chunk];
    }
  }

  /** The words read so far are in the pieces and the piece being filled. */
  ghost predicate WordsRead(pieces: seq<string>, current: string, words: seq<string>, max: nat) {
    AllTokens(pieces) + Tokens(current) == Break(AllTokens(words), max)
  }

  lemma WordRead(words: seq<string>, word: string, max: nat)
    requires Unbroken(word)
    ensures Break(AllTokens(words + [word]), max) == Break(AllTokens(words), max) + Break(Flush(word), max)
  {
    TokensUnbroken(word, "");
    assert "" + word == word;
    assert (words + [word])[..|words|] == words;
    BreakOfSum(AllTokens(words), Flush(word), max);
  }

  lemma PieceDone(pieces: seq<string>, current: string)
    ensures AllTokens(if current == "" then pieces else pieces + [current]) == AllTokens(pieces) + Tokens(current)
  {
    assert (pieces + [current])[..|pieces|] == pieces;
  }

  /** A word longer than the limit ends the piece, and is cut. */
  lemma LongWordRead(pieces: seq<string>, current: string, words: seq<string>, word: string, max: nat)
    requires WordsRead(pieces, current, words, max) && Unbroken(word) && Units(word) > max
    ensures var done := if current == "" then pieces else pieces + [current];
            WordsRead(done + Chunks(word, "", max), "", words + [word], max)
  {
    var done := if current == "" then pieces else pieces + [current];
    WordRead(words, word, max);
    PieceDone(pieces, current);
    ChunksAreTheWord(word, "", max);
    ChunksUnbroken(word, "", max);
    TokensOfUnbroken(Chunks(word, "", max));
    AllTokensOfSum(done, Chunks(word, "", max));
    assert Break([word], max) == BreakOne(word, max) by { assert [word][..0] == []; }
  }

  /** A word within the limit adds itself to the tokens. */
  lemma ShortWordRead(words: seq<string>, word: string, max: nat)
    requires Unbroken(word) && Units(word) <= max
    ensures Break(AllTokens(words + [word]), max) == Break(AllTokens(words), max) + Tokens(word)
  {
    WordRead(words, word, max);
    BreakOfFitting(Flush(word), max);
    TokensUnbroken(word, "");
    assert "" + word == word;
  }

  lemma Appended<T>(a: seq<T>, b: seq<T>, c: seq<T>, more: seq<T>)
    requires a + b == c
    ensures a + (b + more) == c + more
  {
  }

  /** It is the piece's first, or goes on in it after a space. */
  lemma WordIsFirst(pieces: seq<string>, words: seq<string>, word: string, max: nat)
    requires WordsRead(pieces, "", words, max) && Unbroken(word) && Units(word) <= max
    ensures WordsRead(pieces, word, words + [word], max)
  {
    ShortWordRead(words, word, max);
    Appended(AllTokens(pieces), [], Break(AllTokens(words), max), Tokens(word));
    assert [] + Tokens(word) == Tokens(word);
  }

  lemma WordFollows(pieces: seq<string>, current: string, words: seq<string>, word: string, max: nat)
    requires WordsRead(pieces, current, words, max) && Unbroken(word) && Units(word) <= max
    ensures WordsRead(pieces, current + " " + word, words + [word], max)
  {
    ShortWordRead(words, word, max);
    Appended(AllTokens(pieces), Tokens(current), Break(AllTokens(words), max), Tokens(word));
    TokensAtGap(current, ' ', word, "");
    assert current + [' '] + word == current + " " + word;
  }

  /** Or starts a piece of its own. */
  lemma WordStarts(pieces: seq<string>, current: string, words: seq<string>, word: string, max: nat)
    requires WordsRead(pieces, current, words, max) && Unbroken(word) && Units(word) <= max && current != ""
    ensures WordsRead(pieces + [current], word, words + [word], max)
  {
    PieceDone(pieces, current);
    WordIsFirst(pieces + [current], words, word, max);
  }

  lemma UnitsPositive(s: string)
    ensures Units(s) > 0 <==> s != ""
  {
    UnitsAtLeast(s);
  }

  /** One word: cut, or into the piece being filled, or into the next. */
  method ReadWord(pieces: seq<string>, current: string, length: nat, word: string, max: nat, ghost words: seq<string>)
    returns (pieces': seq<string>, current': string, length': nat)
    requires WordsRead(pieces, current, words, max) && Unbroken(word)
    requires AllFit(pieces, max) && length == Units(current) <= max && TightSoFar(pieces, current, words, max)
    ensures WordsRead(pieces', current', words + [word], max) && TightSoFar(pieces', current', words + [word], max)
    ensures AllFit(pieces', max) && length' == Units(current') <= max
  {
    var n := Units(word);
    UnitsPositive(current);
    if n > max {
      LongWordRead(pieces, current, words, word, max);
      SoFarCut(pieces, current, word, words, max);
      ChunksAreTheWord(word, "", max);
      var chunks := CutWord(word, max);
      pieces' := (if length > 0 then pieces + [current] else pieces) + chunks;
      current', length' := "", 0;
    } else if length > 0 && length + 1 + n > max {
      WordStarts(pieces, current, words, word, max);
      SoFarStarts(pieces, current, word, words, max);
      pieces', current', length' := pieces + [current], word, n;
    } else if length > 0 {
      WordFollows(pieces, current, words, word, max);
      UnitsJoined(current, " ", word);
      assert Units(" ") == 1 by { assert " "[..0] == ""; }
      SoFarStays(pieces, current, current + " " + word, words, word, max);
      pieces', current', length' := pieces, current + " " + word, length + 1 + n;
    } else {
      WordIsFirst(pieces, words, word, max);
      SoFarStays(pieces, current, word, words, word, max);
      pieces', current', length' := pieces, word, n;
    }
  }

  /** Pieces of one line that fit: its tokens, in order, each whole unless it is
      longer than the limit itself, when it is cut between characters. No two in a
      row would fit as one, but for those of a word cut. */
  method Words(line: string, max: nat) returns (pieces: seq<string>)
    requires '\n' !in line
    ensures AllTokens(pieces) == Break(Tokens(line), max)
    ensures AllFit(pieces, max) && WordsTight(pieces, SplitOn(line, ' '), max)
  {
    pieces := [];
    var words := SplitOn(line, ' ');
    var current, length, k := "", 0, 0;
    while k < |words|
      invariant 0 <= k <= |words| && length == Units(current) <= max
      invariant WordsRead(pieces, current, words[..k], max)
      invariant AllFit(pieces, max) && TightSoFar(pieces, current, words[..k], max)
    {
      PieceChars(line, ' ', "", words[k]);
      OneMore(words, k);
      pieces, current, length := ReadWord(pieces, current, length, words[k], max, words[..k]);
      k := k + 1;
    }
    assert words[..|words|] == words;
    SplitTokens(line, ' ', "");
    assert "" + line == line;
    UnitsPositive(current);
    PieceDone(pieces, current);
    if length > 0 {
      TightWithNext(pieces, current, words, max);
      pieces := pieces + [current];
    }
  }

  // ─── Lines ──────────────────────────────────────────────────────────────

  /** The pieces that are not white space alone. */
  function Kept(ps: seq<string>): seq<string> {
    if ps == [] then [] else Kept(ps[..|ps| - 1]) + if IsBlank(ps[|ps| - 1]) then [] else [ps[|ps| - 1]]
  }

  lemma {:induction false} KeptIsPart(ps: seq<string>)
    ensures NoneBlank(Kept(ps)) && forall p :: p in Kept(ps) ==> p in ps
  {
    if ps != [] {
      KeptIsPart(ps[..|ps| - 1]);
    }
  }

  /** Dropping blank pieces drops blank tokens only. */
  lemma {:induction false} KeptTokens(ps: seq<string>)
    ensures Solid(AllTokens(Kept(ps))) == Solid(AllTokens(ps))
  {
    if ps != [] {
      var front, last := ps[..|ps| - 1], ps[|ps| - 1];
      KeptTokens(front);
      SolidOfSum(AllTokens(front), Tokens(last));
      if IsBlank(last) {
        BlankTokens(last);
        assert Kept(ps) == Kept(front);
        assert Solid(AllTokens(front)) + [] == Solid(AllTokens(front));
      } else {
        assert (Kept(front) + [last])[..|Kept(front)|] == Kept(front);
        SolidOfSum(AllTokens(Kept(front)), Tokens(last));
      }
    }
  }

  /** One line as parts that fit: itself, or its words. */
  method LineParts(line: string, max: nat) returns (parts: seq<string>)
    requires '\n' !in line
    ensures AllTokens(parts) == Break(Tokens(line), max) && AllFit(parts, max)
    ensures if Units(line) <= max then parts == [line] else WordsTight(parts, SplitOn(line, ' '), max)
  {
    if Units(line) > max {
      parts := Words(line, max);
    } else {
      parts := [line];
      AllTokensOfOne(line);
      forall t | t in Tokens(line)
        ensures Units(t) <= max
      {
        TokenIsSmall(line, "", t);
      }
      BreakOfFitting(Tokens(line), max);
    }
  }

  function Held(current: Option<string>): seq<string> { if current.Some? then [current.value] else [] }

  /** A part added to the text being filled after a line break, or starting the
      next, brings its tokens. */
  lemma PartRead(pieces: seq<string>, current: Option<string>, part: string)
    ensures AllTokens(pieces + Held(current) + [part]) == AllTokens(pieces + Held(current)) + Tokens(part)
    ensures current.Some? ==>
              AllTokens(pieces + [current.value + "\n" + part]) == AllTokens(pieces + Held(current)) + Tokens(part)
  {
    assert (pieces + Held(current) + [part])[..|pieces + Held(current)|] == pieces + Held(current);
    if current.Some? {
      var text := current.value;
      assert (pieces + [text])[..|pieces|] == pieces;
      assert (pieces + [text + "\n" + part])[..|pieces|] == pieces;
      TokensAtGap(text, '\n', part, "");
      assert text + ['\n'] + part == text + "\n" + part;
    }
  }

  /** And its lines. */
  lemma PartLines(pieces: seq<string>, current: Option<string>, part: string)
    ensures LinesIn(pieces + Held(current) + [part]) == LinesIn(pieces + Held(current)) + SplitOn(part, '\n')
    ensures current.Some? ==>
              LinesIn(pieces + [current.value + "\n" + part]) == LinesIn(pieces + Held(current)) + SplitOn(part, '\n')
  {
    LinesInMore(pieces + Held(current), part);
    if current.Some? {
      var text := current.value;
      LinesInMore(pieces, text);
      LinesInMore(pieces, text + "\n" + part);
      LinesJoined(text, part);
      Appended(LinesIn(pieces), SplitOn(text, '\n'), LinesIn(pieces + [text]), SplitOn(part, '\n'));
    }
  }

  /** `after` is `before` with these parts added: its tokens and its lines. */
  ghost predicate FilledWith(before: seq<string>, parts: seq<string>, after: seq<string>) {
    AllTokens(after) == AllTokens(before) + AllTokens(parts) && LinesIn(after) == LinesIn(before) + LinesIn(parts)
  }

  ghost predicate FilledBy(before: seq<string>, part: string, after: seq<string>) {
    AllTokens(after) == AllTokens(before) + Tokens(part) && LinesIn(after) == LinesIn(before) + SplitOn(part, '\n')
  }

  lemma FilledMore(before: seq<string>, parts: seq<string>, middle: seq<string>, part: string, after: seq<string>)
    requires FilledWith(before, parts, middle) && FilledBy(middle, part, after)
    ensures FilledWith(before, parts + [part], after)
  {
    assert (parts + [part])[..|parts|] == parts;
    LinesInMore(parts, part);
    Appended(AllTokens(before), AllTokens(parts), AllTokens(middle), Tokens(part));
    Appended(LinesIn(before), LinesIn(parts), LinesIn(middle), SplitOn(part, '\n'));
  }

  lemma NothingFilled(before: seq<string>)
    ensures FilledWith(before, [], before)
  {
  }

  /** The text being filled, counted; the pieces fit, and none with the next. */
  ghost predicate Filling(pieces: seq<string>, current: Option<string>, length: nat, max: nat) {
    && AllFit(pieces + Held(current), max) && NoneMerge(pieces + Held(current), max)
    && (if current.Some? then length == Units(current.value) else pieces == [])
  }

  /** One part into the text being filled, or into the next. */
  method Fill(pieces: seq<string>, current: Option<string>, length: nat, part: string, max: nat)
    returns (pieces': seq<string>, current': Option<string>, length': nat)
    requires Filling(pieces, current, length, max) && Fits(part, max)
    ensures Filling(pieces', current', length', max) && FilledBy(pieces + Held(current), part, pieces' + Held(current'))
  {
    PartRead(pieces, current, part);
    PartLines(pieces, current, part);
    var n := Units(part);
    if current.Some? && length + 1 + n <= max {
      UnitsJoined(current.value, "\n", part);
      assert Units("\n") == 1 by { assert "\n"[..0] == ""; }
      LastGrows(pieces, current.value, current.value + "\n" + part, max);
      pieces', current', length' := pieces, Some(current.value + "\n" + part), length + 1 + n;
    } else {
      LastFollows(pieces + Held(current), part, max);
      pieces', current', length' := pieces + Held(current), Some(part), n;
    }
  }

  /** The parts of one line, each into the text being filled or the next. */
  method FillAll(pieces: seq<string>, current: Option<string>, length: nat, parts: seq<string>, max: nat)
    returns (pieces': seq<string>, current': Option<string>, length': nat)
    requires Filling(pieces, current, length, max) && AllFit(parts, max)
    ensures Filling(pieces', current', length', max) && FilledWith(pieces + Held(current), parts, pieces' + Held(current'))
  {
    pieces', current', length' := pieces, current, length;
    var i := 0;
    NothingFilled(pieces + Held(current));
    assert parts[..0] == [];
    while i < |parts|
      invariant 0 <= i <= |parts| && Filling(pieces', current', length', max)
      invariant FilledWith(pieces + Held(current), parts[..i], pieces' + Held(current'))
    {
      ghost var middle := pieces' + Held(current');
      pieces', current', length' := Fill(pieces', current', length', parts[i], max);
      FilledMore(pieces + Held(current), parts[..i], middle, parts[i], pieces' + Held(current'));
      OneMore(parts, i);
      i := i + 1;
    }
    assert parts[..|parts|] == parts;
  }

  /** Every fitting line that is not blank is among the lines. */
  ghost predicate FittingIn(lines: seq<string>, max: nat, all: seq<string>) {
    forall l :: l in lines && Units(l) <= max && !IsBlank(l) ==> l in all
  }

  /** The lines so far are in `all`: their tokens, and whole those that fit. */
  ghost predicate LinesRead(lines: seq<string>, max: nat, all: seq<string>) {
    AllTokens(all) == Break(AllTokens(lines), max) && FittingIn(lines, max, LinesIn(all))
  }

  /** One more line, whose parts were added. */
  lemma LineRead(lines: seq<string>, line: string, parts: seq<string>, max: nat, before: seq<string>, after: seq<string>)
    requires LinesRead(lines, max, before) && FilledWith(before, parts, after) && '\n' !in line
    requires AllTokens(parts) == Break(Tokens(line), max) && (Units(line) <= max ==> parts == [line])
    ensures LinesRead(lines + [line], max, after)
  {
    assert (lines + [line])[..|lines|] == lines;
    BreakOfSum(AllTokens(lines), Tokens(line), max);
    if Units(line) <= max {
      LinesInMore([], line);
      SplitNowhere(line, '\n', "");
      assert [] + [line] == [line] && "" + line == line;
      assert line in LinesIn(parts);
    }
  }

  /** Dropping blank pieces drops blank lines only. */
  lemma {:induction false} KeptLines(ps: seq<string>, l: string)
    requires l in LinesIn(ps) && !IsBlank(l)
    ensures l in LinesIn(Kept(ps))
  {
    var front, last := ps[..|ps| - 1], ps[|ps| - 1];
    if l in LinesIn(front) {
      KeptLines(front, l);
    } else {
      PieceChars(last, '\n', "", l);
    }
    if IsBlank(last) {
      assert l in LinesIn(front) && Kept(ps) == Kept(front);
    } else {
      LinesInMore(Kept(front), last);
    }
  }

  /** The pieces with the blank ones between them: they hold the text's tokens, and
      no two in a row would fit as one. */
  ghost predicate CutTight(text: string, max: nat, pieces: seq<string>) {
    exists all :: Kept(all) == pieces && AllTokens(all) == Break(Tokens(text), max) && NoneMerge(all, max)
  }

  lemma KeptWhole(text: string, max: nat, all: seq<string>)
    requires FittingIn(SplitOn(text, '\n'), max, LinesIn(all))
    ensures KeepsLines(text, max, Kept(all))
  {
    forall l | l in SplitOn(text, '\n') && Units(l) <= max && !IsBlank(l)
      ensures l in LinesIn(Kept(all))
    {
      KeptLines(all, l);
    }
  }

  /** One line, whole or in parts, into the text being filled and the next ones. */
  method ReadLine(pieces: seq<string>, current: Option<string>, length: nat, line: string, max: nat, ghost lines: seq<string>)
    returns (pieces': seq<string>, current': Option<string>, length': nat)
    requires Filling(pieces, current, length, max) && LinesRead(lines, max, pieces + Held(current)) && '\n' !in line
    ensures Filling(pieces', current', length', max) && LinesRead(lines + [line], max, pieces' + Held(current'))
  {
    var parts := LineParts(line, max);
    pieces', current', length' := FillAll(pieces, current, length, parts, max);
    LineRead(lines, line, parts, max, pieces + Held(current), pieces' + Held(current'));
  }

  /** When every line is read, the pieces that are not blank are as promised. */
  lemma LinesDone(text: string, max: nat, all: seq<string>)
    requires LinesRead(SplitOn(text, '\n'), max, all) && AllFit(all, max) && NoneMerge(all, max)
    ensures Solid(AllTokens(Kept(all))) == Solid(Break(Tokens(text), max))
    ensures AllFit(Kept(all), max) && NoneBlank(Kept(all)) && KeepsLines(text, max, Kept(all)) && CutTight(text, max, Kept(all))
  {
    SplitTokens(text, '\n', "");
    assert "" + text == text;
    KeptTokens(all);
    KeptIsPart(all);
    KeptWhole(text, max, all);
  }

  /** Pieces of a text that fit, none of them blank; what is lost between them is
      blank. Lines that fit are whole in them, and no two pieces, with the blank
      ones that were dropped, would have fit as one. */
  method Lines(text: string, max: nat) returns (pieces: seq<string>)
    ensures Solid(AllTokens(pieces)) == Solid(Break(Tokens(text), max))
    ensures AllFit(pieces, max) && NoneBlank(pieces)
    ensures KeepsLines(text, max, pieces) && CutTight(text, max, pieces)
  {
    pieces := [];
    var current: Option<string>, length: nat, lines, k := None, 0, SplitOn(text, '\n'), 0;
    while k < |lines|
      invariant 0 <= k <= |lines| && Filling(pieces, current, length, max)
      invariant LinesRead(lines[..k], max, pieces + Held(current))
    {
      PieceChars(text, '\n', "", lines[k]);
      pieces, current, length := ReadLine(pieces, current, length, lines[k], max, lines[..k]);
      OneMore(lines, k);
      k := k + 1;
    }
    assert lines[..|lines|] == lines;
    pieces := pieces + Held(current);
    LinesDone(text, max, pieces);
    pieces := Kept(pieces);
  }

  // ─── Blocks ─────────────────────────────────────────────────────────────

  /** What the pieces of a block that is too long hold: the block's own tokens,
      or, of a code block with room for fences, those of its content, each
      piece fenced again where it can be. `plain` is the pieces unfenced. Either
      way lines that fit are whole, and no piece would fit with the next. */
  ghost predicate CutOk(block: Block, max: nat, pieces: seq<string>, plain: seq<string>) {
    && AllFit(pieces, max) && NoneBlank(pieces)
    && if block.code.Some? && max >= FENCES + 2 then
         && pieces == RefencedAll(plain) && AllWithin(pieces, max)
         && Solid(AllTokens(plain)) == Solid(Break(Tokens(block.code.value), max - FENCES))
         && KeepsLines(block.code.value, max - FENCES, plain) && CutTight(block.code.value, max - FENCES, plain)
       else
         && Solid(AllTokens(pieces)) == Solid(Break(Tokens(block.text), max))
         && KeepsLines(block.text, max, pieces) && CutTight(block.text, max, pieces)
  }

  lemma RefencedFits(piece: string, max: nat)
    requires max >= FENCES + 2 && Fits(piece, max - FENCES) && !IsBlank(piece)
    ensures Units(Refenced(piece)) <= max && !IsBlank(Refenced(piece))
  {
    FencedUnits(piece);
    UnitsAtLeast(piece);
  }

  function RefencedAll(plain: seq<string>): seq<string> {
    if plain == [] then [] else RefencedAll(plain[..|plain| - 1]) + [Refenced(plain[|plain| - 1])]
  }

  lemma {:induction false} AllRefencedFit(plain: seq<string>, max: nat)
    requires max >= FENCES + 2 && AllFit(plain, max - FENCES) && NoneBlank(plain)
    ensures AllWithin(RefencedAll(plain), max) && NoneBlank(RefencedAll(plain))
  {
    if plain != [] {
      var front, last := plain[..|plain| - 1], plain[|plain| - 1];
      assert last in plain && forall p :: p in front ==> p in plain;
      AllRefencedFit(front, max);
      RefencedFits(last, max);
    }
  }

  /** The pieces of a code block, each fenced again where it can be. */
  method Refence(plain: seq<string>) returns (pieces: seq<string>)
    ensures pieces == RefencedAll(plain)
  {
    pieces := [];
    var i := 0;
    while i < |plain|
      invariant 0 <= i <= |plain| && pieces == RefencedAll(plain[..i])
    {
      assert plain[..i + 1][..i] == plain[..i];
      pieces := pieces + [Refenced(plain[i])];
      i := i + 1;
    }
    assert plain[..i] == plain;
  }

  /** An oversized block in pieces. */
  method Cut(block: Block, max: nat) returns (pieces: seq<string>, plain: seq<string>)
    ensures CutOk(block, max, pieces, plain)
  {
    if block.code.Some? && max >= FENCES + 2 {
      var inner := Lines(block.code.value, max - FENCES);
      plain := inner;
      pieces := Refence(inner);
      AllRefencedFit(inner, max);
    } else {
      pieces := Lines(block.text, max);
      plain := pieces;
    }
  }

  /** A piece to pack: `joins` unless it goes on a block that was cut. */
  datatype Piece = Piece(text: string, sep: string, joins: bool)

  /** The messages with one more piece, joined to the last one or not. */
  function Onto(parts: seq<string>, p: Piece, join: bool): seq<string> {
    if join && parts != [] then parts[..|parts| - 1] + [parts[|parts| - 1] + p.sep + p.text] else parts + [p.text]
  }

  predicate CanJoin(parts: seq<string>, p: Piece, max: nat) {
    parts != [] && p.joins && Units(parts[|parts| - 1]) + |p.sep| + Units(p.text) <= max
  }

  /** Packing as the limit allows, piece by piece: into the last message if it
      may join it and fits there, else into the next. */
  function Packed(ps: seq<Piece>, max: nat): seq<string> {
    if ps == [] then [] else
      var front, p := Packed(ps[..|ps| - 1], max), ps[|ps| - 1];
      Onto(front, p, CanJoin(front, p, max))
  }

  /** The pieces of one block: the first may join the message before it. */
  function PiecesOf(pieces: seq<string>, sep: Sep): seq<Piece> {
    if pieces == [] then [] else
      PiecesOf(pieces[..|pieces| - 1], sep) + [Piece(pieces[|pieces| - 1], Text(sep), |pieces| == 1)]
  }

  /** The pieces of the blocks, `cuts[i]` those of the i-th. */
  function Flat(blocks: seq<Block>, cuts: seq<seq<string>>): seq<Piece>
    requires |blocks| == |cuts|
  {
    if blocks == [] then [] else
      var n := |blocks| - 1;
      Flat(blocks[..n], cuts[..n]) + PiecesOf(cuts[n], blocks[n].sep)
  }

  ghost predicate PiecesOk(block: Block, max: nat, pieces: seq<string>, plain: seq<string>) {
    if Units(block.text) <= max then pieces == [block.text] else CutOk(block, max, pieces, plain)
  }

  ghost predicate CutsOk(blocks: seq<Block>, max: nat, cuts: seq<seq<string>>, plains: seq<seq<string>>) {
    && |blocks| == |cuts| == |plains|
    && (blocks != [] ==>
          var n := |blocks| - 1;
          CutsOk(blocks[..n], max, cuts[..n], plains[..n]) && PiecesOk(blocks[n], max, cuts[n], plains[n]))
  }

  /** The messages so far, the last still being filled. */
  function Messages(parts: seq<string>, current: string): seq<string> {
    if current == "" then parts else parts + [current]
  }

  /** A piece into the message being filled, or into the next. */
  method Add(parts: seq<string>, current: string, length: nat, piece: string, sep: Sep, first: bool, max: nat, ghost flat: seq<Piece>)
    returns (parts': seq<string>, current': string, length': nat)
    requires Messages(parts, current) == Packed(flat, max) && length == Units(current) && piece != ""
    requires current == "" ==> parts == []
    ensures Messages(parts', current') == Packed(flat + [Piece(piece, Text(sep), first)], max)
    ensures length' == Units(current') && current' != ""
  {
    var n := Units(piece);
    assert (flat + [Piece(piece, Text(sep), first)])[..|flat|] == flat;
    if current == "" {
      parts', current', length' := parts, piece, n;
    } else if first && length + |Text(sep)| + n <= max {
      UnitsJoined(current, Text(sep), piece);
      SepUnits(sep);
      parts', current', length' := parts, current + Text(sep) + piece, length + |Text(sep)| + n;
    } else {
      parts', current', length' := parts + [current], piece, n;
    }
  }

  lemma SepUnits(sep: Sep)
    ensures Units(Text(sep)) == |Text(sep)|
  {
    assert "\n"[..0] == "" && "\n\n"[..1] == "\n";
  }

  lemma OnePieceMore(flat: seq<Piece>, pieces: seq<string>, sep: Sep, i: nat)
    requires i < |pieces|
    ensures flat + PiecesOf(pieces[..i + 1], sep) == flat + PiecesOf(pieces[..i], sep) + [Piece(pieces[i], Text(sep), i == 0)]
  {
    assert pieces[..i + 1][..i] == pieces[..i];
  }

  /** The pieces of one block, each into the message being filled or the next. */
  method AddAll(parts: seq<string>, current: string, length: nat, pieces: seq<string>, sep: Sep, max: nat, ghost flat: seq<Piece>)
    returns (parts': seq<string>, current': string, length': nat)
    requires Messages(parts, current) == Packed(flat, max) && length == Units(current)
    requires NoneBlank(pieces) && (current == "" ==> parts == [])
    ensures Messages(parts', current') == Packed(flat + PiecesOf(pieces, sep), max)
    ensures length' == Units(current') && (current' == "" ==> parts' == [])
  {
    parts', current', length' := parts, current, length;
    ghost var seen := flat;
    var i := 0;
    while i < |pieces|
      invariant 0 <= i <= |pieces| && seen == flat + PiecesOf(pieces[..i], sep)
      invariant Messages(parts', current') == Packed(seen, max) && length' == Units(current')
      invariant current' == "" ==> parts' == []
    {
      OnePieceMore(flat, pieces, sep, i);
      assert !IsBlank(pieces[i]);
      parts', current', length' := Add(parts', current', length', pieces[i], sep, i == 0, max, seen);
      seen, i := seen + [Piece(pieces[i], Text(sep), i == 0)], i + 1;
    }
    assert pieces[..i] == pieces;
  }

  /** A block as it is, if it fits, else cut. */
  method PiecesFor(block: Block, max: nat) returns (pieces: seq<string>, plain: seq<string>)
    requires !IsBlank(block.text)
    ensures PiecesOk(block, max, pieces, plain) && NoneBlank(pieces)
  {
    if Units(block.text) <= max {
      pieces, plain := [block.text], [];
    } else {
      pieces, plain := Cut(block, max);
    }
  }

  lemma CutsMore(blocks: seq<Block>, max: nat, cuts: seq<seq<string>>, plains: seq<seq<string>>, block: Block, pieces: seq<string>, plain: seq<string>)
    requires CutsOk(blocks, max, cuts, plains) && PiecesOk(block, max, pieces, plain)
    ensures CutsOk(blocks + [block], max, cuts + [pieces], plains + [plain])
  {
    var n := |blocks|;
    assert (blocks + [block])[..n] == blocks && (cuts + [pieces])[..n] == cuts && (plains + [plain])[..n] == plains;
  }

  /** The messages so far are the packing of the blocks' pieces. */
  ghost predicate PackedSo(blocks: seq<Block>, max: nat, cuts: seq<seq<string>>, plains: seq<seq<string>>, messages: seq<string>) {
    CutsOk(blocks, max, cuts, plains) && messages == Packed(Flat(blocks, cuts), max)
  }

  /** One block's pieces into the message being filled, and the next ones. */
  method PackOne(parts: seq<string>, current: string, length: nat, block: Block, max: nat,
                 ghost blocks: seq<Block>, ghost cuts: seq<seq<string>>, ghost plains: seq<seq<string>>)
    returns (parts': seq<string>, current': string, length': nat, pieces: seq<string>, plain: seq<string>)
    requires !IsBlank(block.text) && length == Units(current) && (current == "" ==> parts == [])
    requires PackedSo(blocks, max, cuts, plains, Messages(parts, current))
    ensures PackedSo(blocks + [block], max, cuts + [pieces], plains + [plain], Messages(parts', current'))
    ensures length' == Units(current') && (current' == "" ==> parts' == [])
  {
    pieces, plain := PiecesFor(block, max);
    parts', current', length' := AddAll(parts, current, length, pieces, block.sep, max, Flat(blocks, cuts));
    CutsMore(blocks, max, cuts, plains, block, pieces, plain);
    FlatMore(blocks, cuts, block, pieces);
  }

  /** Blocks into messages: the greedy packing of their pieces. `cuts` are the
      blocks' pieces, `plains` those of code blocks without their fences. */
  method Pack(blocks: seq<Block>, max: nat)
    returns (parts: seq<string>, cuts: seq<seq<string>>, plains: seq<seq<string>>)
    requires forall b :: b in blocks ==> !IsBlank(b.text)
    ensures PackedSo(blocks, max, cuts, plains, parts)
  {
    parts, cuts, plains := [], [], [];
    var current, length, k := "", 0, 0;
    while k < |blocks|
      invariant 0 <= k <= |blocks| && length == Units(current) && (current == "" ==> parts == [])
      invariant PackedSo(blocks[..k], max, cuts, plains, Messages(parts, current))
    {
      var pieces, plain;
      parts, current, length, pieces, plain := PackOne(parts, current, length, blocks[k], max, blocks[..k], cuts, plains);
      OneMore(blocks, k);
      cuts, plains := cuts + [pieces], plains + [plain];
      k := k + 1;
    }
    assert blocks[..|blocks|] == blocks;
    parts := Messages(parts, current);
  }

  lemma FlatMore(blocks: seq<Block>, cuts: seq<seq<string>>, block: Block, pieces: seq<string>)
    requires |blocks| == |cuts|
    ensures Flat(blocks + [block], cuts + [pieces]) == Flat(blocks, cuts) + PiecesOf(pieces, block.sep)
  {
    var n := |blocks|;
    assert (blocks + [block])[..n] == blocks && (cuts + [pieces])[..n] == cuts;
  }
}
