/**
 The lines of texts, and how tightly pieces of a text fill a limit.
 */
module TextLines {
  import opened Texts

  /** The lines of the parts, in order. */
  function LinesIn(parts: seq<string>): seq<string> {
    if parts == [] then [] else LinesIn(parts[..|parts| - 1]) + SplitOn(parts[|parts| - 1], '\n')
  }

  lemma OneMore<T>(q: seq<T>, i: nat)
    requires i < |q|
    ensures q[..i + 1] == q[..i] + [q[i]]
  {
  }

  /** Dividing a text at a separator divides its pieces there. */
  lemma {:induction false} SplitAt(a: string, sep: char, b: string, cur: string)
    ensures SplitFrom(a + [sep] + b, sep, cur) == SplitFrom(a, sep, cur) + SplitOn(b, sep)
    decreases |a|
  {
    if a == "" {
      assert (a + [sep] + b)[1..] == b;
    } else {
      assert (a + [sep] + b)[1..] == a[1..] + [sep] + b;
      if a[0] == sep {
        SplitAt(a[1..], sep, b, "");
      } else {
        SplitAt(a[1..], sep, b, cur + [a[0]]);
      }
    }
  }

  lemma LinesJoined(a: string, b: string)
    ensures SplitOn(a + "\n" + b, '\n') == SplitOn(a, '\n') + SplitOn(b, '\n')
  {
    SplitAt(a, '\n', b, "");
    assert a + ['\n'] + b == a + "\n" + b;
  }

  /** A text without the separator is one piece. */
  lemma {:induction false} SplitNowhere(s: string, sep: char, cur: string)
    requires sep !in s
    ensures SplitFrom(s, sep, cur) == [cur + s]
    decreases |s|
  {
    if s == "" {
      assert cur + s == cur;
    } else {
      assert s[0] in s && cur + [s[0]] + s[1..] == cur + s;
      SplitNowhere(s[1..], sep, cur + [s[0]]);
    }
  }

  lemma LinesInMore(parts: seq<string>, part: string)
    ensures LinesIn(parts + [part]) == LinesIn(parts) + SplitOn(part, '\n')
  {
    assert (parts + [part])[..|parts|] == parts;
  }

  lemma {:induction false} LinesInSum(a: seq<string>, b: seq<string>)
    ensures LinesIn(a + b) == LinesIn(a) + LinesIn(b)
  {
    if b == [] {
      assert a + b == a;
    } else {
      assert (a + b)[..|a + b| - 1] == a + b[..|b| - 1];
      LinesInSum(a, b[..|b| - 1]);
    }
  }

  /** Every line of the text that fits, and is not blank, is a line of some piece. */
  ghost predicate KeepsLines(text: string, max: nat, pieces: seq<string>) {
    forall l :: l in SplitOn(text, '\n') && Units(l) <= max && !IsBlank(l) ==> l in LinesIn(pieces)
  }

  /** No two pieces in a row would fit as one, with one character between. */
  ghost predicate NoneMerge(pieces: seq<string>, max: nat) {
    var n := |pieces|;
    n > 1 ==> Units(pieces[n - 2]) + 1 + Units(pieces[n - 1]) > max && NoneMerge(pieces[..n - 1], max)
  }

  /** The last piece may grow, */
  lemma LastGrows(pieces: seq<string>, last: string, longer: string, max: nat)
    requires NoneMerge(pieces + [last], max) && Units(last) <= Units(longer)
    ensures NoneMerge(pieces + [longer], max)
  {
    assert (pieces + [last])[..|pieces|] == pieces && (pieces + [longer])[..|pieces|] == pieces;
  }

  /** or another follow once it would not have fit in it. */
  lemma LastFollows(pieces: seq<string>, next: string, max: nat)
    requires NoneMerge(pieces, max) && (pieces != [] ==> Units(pieces[|pieces| - 1]) + 1 + Units(next) > max)
    ensures NoneMerge(pieces + [next], max)
  {
    assert (pieces + [next])[..|pieces|] == pieces;
  }

  /** Each chunk of a word cut between characters is full: the next one's first
      character would not have fit in it. */
  ghost predicate AllFull(chunks: seq<string>, max: nat) {
    |chunks| > 1 ==> chunks[1] != "" && Units(chunks[0]) + Width(chunks[1][0]) > max && AllFull(chunks[1..], max)
  }

  lemma {:induction false} ChunksAreFull(rest: string, cur: string, max: nat)
    ensures AllFull(Chunks(rest, cur, max), max)
    ensures cur != "" ==> Chunks(rest, cur, max) != [] && Chunks(rest, cur, max)[0] != "" && Chunks(rest, cur, max)[0][0] == cur[0]
    decreases |rest|
  {
    if rest != "" {
      if cur != "" && Units(cur) + Width(rest[0]) > max {
        ChunksAreFull(rest[1..], [rest[0]], max);
      } else {
        ChunksAreFull(rest[1..], cur + [rest[0]], max);
      }
    }
  }

  // ─── Words of a line ────────────────────────────────────────────────────

  /** A piece of a word longer than the limit. */
  ghost predicate IsChunk(p: string, words: seq<string>, max: nat) {
    exists w :: w in words && Units(w) > max && p in Chunks(w, "", max)
  }

  /** No two pieces in a row would fit as one with a space between, but for those
      of words that had to be cut. */
  ghost predicate WordsTight(pieces: seq<string>, words: seq<string>, max: nat) {
    var n := |pieces|;
    n > 1 ==>
      && (Units(pieces[n - 2]) + 1 + Units(pieces[n - 1]) > max
          || IsChunk(pieces[n - 2], words, max) || IsChunk(pieces[n - 1], words, max))
      && WordsTight(pieces[..n - 1], words, max)
  }

  lemma ChunkStays(p: string, words: seq<string>, word: string, max: nat)
    requires IsChunk(p, words, max)
    ensures IsChunk(p, words + [word], max)
  {
    var w :| w in words && Units(w) > max && p in Chunks(w, "", max);
    assert w in words + [word];
  }

  lemma {:induction false} StaysTight(pieces: seq<string>, words: seq<string>, word: string, max: nat)
    requires WordsTight(pieces, words, max)
    ensures WordsTight(pieces, words + [word], max)
    decreases |pieces|
  {
    var n := |pieces|;
    if n > 1 {
      StaysTight(pieces[..n - 1], words, word, max);
      if IsChunk(pieces[n - 2], words, max) {
        ChunkStays(pieces[n - 2], words, word, max);
      }
      if IsChunk(pieces[n - 1], words, max) {
        ChunkStays(pieces[n - 1], words, word, max);
      }
    }
  }

  /** One more piece: next to a chunk, a chunk itself, or too long to have gone on
      in the one before. */
  lemma TightWithNext(pieces: seq<string>, next: string, words: seq<string>, max: nat)
    requires WordsTight(pieces, words, max)
    requires pieces != [] ==>
               Units(pieces[|pieces| - 1]) + 1 + Units(next) > max || IsChunk(pieces[|pieces| - 1], words, max) || IsChunk(next, words, max)
    ensures WordsTight(pieces + [next], words, max)
  {
    assert (pieces + [next])[..|pieces|] == pieces;
  }

  /** What is being filled could not go on in the last piece. */
  ghost predicate MustFollow(pieces: seq<string>, current: string, words: seq<string>, max: nat) {
    pieces == [] || IsChunk(pieces[|pieces| - 1], words, max)
    || Units(pieces[|pieces| - 1]) + 1 + Units(current) > max
  }

  ghost predicate TightSoFar(pieces: seq<string>, current: string, words: seq<string>, max: nat) {
    WordsTight(pieces, words, max) && MustFollow(pieces, current, words, max)
  }

  lemma SoFarStays(pieces: seq<string>, current: string, longer: string, words: seq<string>, word: string, max: nat)
    requires TightSoFar(pieces, current, words, max) && Units(current) <= Units(longer)
    ensures TightSoFar(pieces, longer, words + [word], max)
  {
    StaysTight(pieces, words, word, max);
    if pieces != [] && IsChunk(pieces[|pieces| - 1], words, max) {
      ChunkStays(pieces[|pieces| - 1], words, word, max);
    }
  }

  lemma SoFarStarts(pieces: seq<string>, current: string, word: string, words: seq<string>, max: nat)
    requires TightSoFar(pieces, current, words, max) && Units(current) + 1 + Units(word) > max
    ensures TightSoFar(pieces + [current], word, words + [word], max)
  {
    TightWithNext(pieces, current, words, max);
    StaysTight(pieces + [current], words, word, max);
  }

  lemma SoFarCut(pieces: seq<string>, current: string, word: string, words: seq<string>, max: nat)
    requires TightSoFar(pieces, current, words, max) && Units(word) > max
    ensures TightSoFar((if current == "" then pieces else pieces + [current]) + Chunks(word, "", max), "", words + [word], max)
  {
    var done, chunks := if current == "" then pieces else pieces + [current], Chunks(word, "", max);
    if current != "" {
      TightWithNext(pieces, current, words, max);
    }
    StaysTight(done, words, word, max);
    TightWithChunks(done, word, words + [word], |chunks|, max);
    assert chunks[..|chunks|] == chunks;
    if chunks == [] {
      ChunksAreTheWord(word, "", max);
    } else {
      assert IsChunk(chunks[|chunks| - 1], words + [word], max);
    }
  }

  lemma {:induction false} TightWithChunks(pieces: seq<string>, word: string, words: seq<string>, n: nat, max: nat)
    requires WordsTight(pieces, words, max) && Units(word) > max && word in words && n <= |Chunks(word, "", max)|
    ensures WordsTight(pieces + Chunks(word, "", max)[..n], words, max)
  {
    var chunks := Chunks(word, "", max);
    if n == 0 {
      assert pieces + chunks[..0] == pieces;
    } else {
      TightWithChunks(pieces, word, words, n - 1, max);
      assert IsChunk(chunks[n - 1], words, max);
      TightWithNext(pieces + chunks[..n - 1], chunks[n - 1], words, max);
      assert pieces + chunks[..n] == pieces + chunks[..n - 1] + [chunks[n - 1]];
    }
  }

  // ─── What a message is measured by ──────────────────────────────────────

  /** A character as UTF-16 encodes it: itself, or two surrogates. */
  function Encoded(c: char): seq<nat> {
    var n := c as int;
    if n < 0x1_0000 then [n] else [0xD800 + (n - 0x1_0000) / 0x400, 0xDC00 + (n - 0x1_0000) % 0x400]
  }

  function Utf16(s: string): seq<nat> { if s == "" then [] else Encoded(s[0]) + Utf16(s[1..]) }

  /** The units of a text are the length of its UTF-16 encoding. */
  lemma {:induction false} UnitsAreUtf16(s: string)
    ensures Units(s) == |Utf16(s)|
  {
    if s != "" {
      UnitsAreUtf16(s[1..]);
      UnitsOfSum([s[0]], s[1..]);
      assert [s[0]] + s[1..] == s && [s[0]][..0] == [];
    }
  }
}
