/**
 What packing promises of any blocks, code blocks cut and fenced again among them.
 */
module PackResults {
  import opened Texts
  import opened Splitter
  import opened SplitterResults

  /** A code block too long for a message, cut with room for fences around each piece. */
  predicate IsFencedAgain(block: Block, max: nat) {
    Units(block.text) > max && block.code.Some? && max >= FENCES + 2
  }

  /** The ink a block is to leave in the messages: its text's, or, of a code block
      cut so, that of its pieces `plain`, each with the fences it can have. */
  function InkFor(block: Block, max: nat, plain: seq<string>): string {
    if IsFencedAgain(block, max) then InkOfAll(RefencedAll(plain)) else Ink(block.text)
  }

  function InkForAll(blocks: seq<Block>, max: nat, plains: seq<seq<string>>): string
    requires |plains| == |blocks|
  {
    if blocks == [] then "" else
      var n := |blocks| - 1;
      InkForAll(blocks[..n], max, plains[..n]) + InkFor(blocks[n], max, plains[n])
  }

  /** The pieces of each code block cut so hold the ink of its content, in order. */
  ghost predicate CodeKept(blocks: seq<Block>, max: nat, plains: seq<seq<string>>) {
    |plains| == |blocks| &&
    forall i :: 0 <= i < |blocks| && IsFencedAgain(blocks[i], max) ==> InkOfAll(plains[i]) == Ink(blocks[i].code.value)
  }

  /** Pieces that hold a text's tokens, broken where they must be, hold its ink. */
  lemma SameInk(text: string, max: nat, pieces: seq<string>)
    requires Solid(AllTokens(pieces)) == Solid(Break(Tokens(text), max))
    ensures InkOfAll(pieces) == Ink(text)
  {
    InkOfAllTokens(pieces);
    InkOfSolid(AllTokens(pieces));
    InkOfSolid(Break(Tokens(text), max));
    ConcatOfBreak(Tokens(text), max);
    InkOfTokens(text, "");
  }

  lemma BlockHolds(block: Block, max: nat, pieces: seq<string>, plain: seq<string>)
    requires PiecesOk(block, max, pieces, plain) && !IsBlank(block.text)
    ensures AllFit(pieces, max) && NoneBlank(pieces) && InkOfAll(pieces) == InkFor(block, max, plain)
    ensures IsFencedAgain(block, max) ==> InkOfAll(plain) == Ink(block.code.value)
  {
    if Units(block.text) <= max {
      assert [block.text][..0] == [];
      assert InkOfAll([]) + Ink(block.text) == Ink(block.text);
    } else if IsFencedAgain(block, max) {
      CodeIsKept(block, max, pieces, plain);
    } else {
      SameInk(block.text, max, pieces);
    }
  }

  function InkOfPieces(ps: seq<Piece>): string {
    if ps == [] then "" else InkOfPieces(ps[..|ps| - 1]) + Ink(ps[|ps| - 1].text)
  }

  lemma {:induction false} InkOfPiecesSum(a: seq<Piece>, b: seq<Piece>)
    ensures InkOfPieces(a + b) == InkOfPieces(a) + InkOfPieces(b)
  {
    if b == [] {
      assert a + b == a;
    } else {
      assert (a + b)[..|a + b| - 1] == a + b[..|b| - 1];
      InkOfPiecesSum(a, b[..|b| - 1]);
    }
  }

  lemma {:induction false} PiecesOfInk(pieces: seq<string>, sep: Sep)
    ensures InkOfPieces(PiecesOf(pieces, sep)) == InkOfAll(pieces)
  {
    if pieces != [] {
      PiecesOfInk(pieces[..|pieces| - 1], sep);
    }
  }

  lemma SepHasNoInk(sep: string)
    requires sep == "\n" || sep == "\n\n"
    ensures Ink(sep) == ""
  {
    InkOfBlank(sep);
  }

  lemma OntoInk(parts: seq<string>, p: Piece, join: bool)
    requires p.sep == "\n" || p.sep == "\n\n"
    ensures InkOfAll(Onto(parts, p, join)) == InkOfAll(parts) + Ink(p.text)
  {
    var all := Onto(parts, p, join);
    if join && parts != [] {
      var front, last := parts[..|parts| - 1], parts[|parts| - 1];
      assert all[..|all| - 1] == front;
      InkOfSum(last + p.sep, p.text);
      InkOfSum(last, p.sep);
      SepHasNoInk(p.sep);
      assert Ink(last) + "" == Ink(last);
    } else {
      assert all[..|all| - 1] == parts;
    }
  }

  lemma {:induction false} PackedInk(ps: seq<Piece>, max: nat)
    requires SepsOk(ps)
    ensures InkOfAll(Packed(ps, max)) == InkOfPieces(ps)
  {
    if ps != [] {
      var before, p := ps[..|ps| - 1], ps[|ps| - 1];
      assert p in ps && forall q :: q in before ==> q in ps;
      PackedInk(before, max);
      OntoInk(Packed(before, max), p, CanJoin(Packed(before, max), p, max));
    }
  }

  lemma {:induction false} BlocksHold(blocks: seq<Block>, max: nat, cuts: seq<seq<string>>, plains: seq<seq<string>>)
    requires CutsOk(blocks, max, cuts, plains) && forall b :: b in blocks ==> !IsBlank(b.text)
    ensures PiecesFit(Flat(blocks, cuts), max) && InkOfPieces(Flat(blocks, cuts)) == InkForAll(blocks, max, plains)
    ensures CodeKept(blocks, max, plains)
  {
    if blocks != [] {
      var n := |blocks| - 1;
      assert blocks[n] in blocks && forall b :: b in blocks[..n] ==> b in blocks;
      BlocksHold(blocks[..n], max, cuts[..n], plains[..n]);
      BlockHolds(blocks[n], max, cuts[n], plains[n]);
      PiecesOfFit(cuts[n], blocks[n].sep, max);
      PiecesOfInk(cuts[n], blocks[n].sep);
      InkOfPiecesSum(Flat(blocks[..n], cuts[..n]), PiecesOf(cuts[n], blocks[n].sep));
      CodeKeptMore(blocks, max, plains);
    }
  }

  lemma CodeKeptMore(blocks: seq<Block>, max: nat, plains: seq<seq<string>>)
    requires blocks != [] && |plains| == |blocks|
    requires CodeKept(blocks[..|blocks| - 1], max, plains[..|blocks| - 1])
    requires var n := |blocks| - 1; IsFencedAgain(blocks[n], max) ==> InkOfAll(plains[n]) == Ink(blocks[n].code.value)
    ensures CodeKept(blocks, max, plains)
  {
    var n := |blocks| - 1;
    assert forall i :: 0 <= i < n ==> blocks[..n][i] == blocks[i] && plains[..n][i] == plains[i];
  }

  /** Whatever the blocks, code or not, and whatever the limit: each message fits
      it (from two units on, it is within it), none is blank, and together they
      hold the blocks' ink in order and no more, but for the fences around the
      pieces of a code block that was cut, which hold its content's. */
  lemma PackHolds(blocks: seq<Block>, max: nat, cuts: seq<seq<string>>, plains: seq<seq<string>>, parts: seq<string>)
    requires PackedSo(blocks, max, cuts, plains, parts) && forall b :: b in blocks ==> !IsBlank(b.text)
    ensures AllFit(parts, max) && NoneBlank(parts) && (max >= 2 ==> AllWithin(parts, max))
    ensures CodeKept(blocks, max, plains) && InkOfAll(parts) == InkForAll(blocks, max, plains)
  {
    BlocksHold(blocks, max, cuts, plains);
    PackedFit(Flat(blocks, cuts), max);
    PackedInk(Flat(blocks, cuts), max);
    forall p | p in parts && max >= 2
      ensures Units(p) <= max
    {
      UnitsAtLeast(p);
    }
  }
}
