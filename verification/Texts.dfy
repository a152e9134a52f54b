/**
 Text as the renderer measures and divides it: UTF-16 code units, white space,
 and the tokens between spaces and line breaks.
 */
module Texts {
  /** How many UTF-16 code units a character takes. */
  function Width(c: char): nat { if c as int >= 0x1_0000 then 2 else 1 }

  /** The Unicode property White_Space. */
  predicate IsWhitespace(c: char) {
    var n := c as int;
    || 0x9 <= n <= 0xD || n == 0x20 || n == 0x85 || n == 0xA0 || n == 0x1680 || 0x2000 <= n <= 0x200A
    || n == 0x2028 || n == 0x2029 || n == 0x202F || n == 0x205F || n == 0x3000
  }

  predicate IsBlank(s: string) { forall c :: c in s ==> IsWhitespace(c) }

  function TrimStart(s: string): string {
    if s != "" && IsWhitespace(s[0]) then TrimStart(s[1..]) else s
  }

  function TrimEnd(s: string): string {
    if s != "" && IsWhitespace(s[|s| - 1]) then TrimEnd(s[..|s| - 1]) else s
  }

  function Trim(s: string): string { TrimEnd(TrimStart(s)) }

  function Units(s: string): nat {
    if s == "" then 0 else Units(s[..|s| - 1]) + Width(s[|s| - 1])
  }

  lemma {:induction false} UnitsOfSum(a: string, b: string)
    ensures Units(a + b) == Units(a) + Units(b)
  {
    if b == "" {
      assert a + b == a;
    } else {
      assert (a + b)[..|a + b| - 1] == a + b[..|b| - 1];
      UnitsOfSum(a, b[..|b| - 1]);
    }
  }

  lemma {:induction false} UnitsAtLeast(s: string)
    ensures |s| <= Units(s) <= 2 * |s|
  {
    if s != "" {
      UnitsAtLeast(s[..|s| - 1]);
    }
  }

  // ─── Dividing ───────────────────────────────────────────────────────────

  /** The pieces of `s` between occurrences of `sep`; `cur` is what the piece
      being read holds so far. */
  function SplitFrom(s: string, sep: char, cur: string): (r: seq<string>)
    ensures |r| > 0
  {
    if s == "" then [cur]
    else if s[0] == sep then [cur] + SplitFrom(s[1..], sep, "")
    else SplitFrom(s[1..], sep, cur + [s[0]])
  }

  function SplitOn(s: string, sep: char): seq<string> { SplitFrom(s, sep, "") }

  /** The pieces of `s` between blank lines, read from the left. */
  function ParagraphsFrom(s: string, cur: string): (r: seq<string>)
    ensures |r| > 0
  {
    if s == "" then [cur]
    else if |s| >= 2 && s[0] == '\n' && s[1] == '\n' then [cur] + ParagraphsFrom(s[2..], "")
    else ParagraphsFrom(s[1..], cur + [s[0]])
  }

  // ─── Tokens ─────────────────────────────────────────────────────────────

  predicate IsGap(c: char) { c == ' ' || c == '\n' }

  predicate Unbroken(s: string) { forall c :: c in s ==> !IsGap(c) }

  /** The token read so far, if any. */
  function Flush(cur: string): seq<string> { if cur == "" then [] else [cur] }

  function TokensFrom(s: string, cur: string): seq<string> {
    if s == "" then Flush(cur)
    else if IsGap(s[0]) then Flush(cur) + TokensFrom(s[1..], "")
    else TokensFrom(s[1..], cur + [s[0]])
  }

  /** The runs of characters between spaces and line breaks. */
  function Tokens(s: string): seq<string> { TokensFrom(s, "") }

  function AllTokens(parts: seq<string>): seq<string> {
    if parts == [] then [] else AllTokens(parts[..|parts| - 1]) + Tokens(parts[|parts| - 1])
  }

  lemma {:induction false} TokensAtGap(a: string, gap: char, b: string, cur: string)
    requires IsGap(gap)
    ensures TokensFrom(a + [gap] + b, cur) == TokensFrom(a, cur) + Tokens(b)
    decreases |a|
  {
    if a == "" {
      assert (a + [gap] + b)[1..] == b;
    } else {
      assert (a + [gap] + b)[1..] == a[1..] + [gap] + b;
      if IsGap(a[0]) {
        TokensAtGap(a[1..], gap, b, "");
      } else {
        TokensAtGap(a[1..], gap, b, cur + [a[0]]);
      }
    }
  }

  lemma {:induction false} TokensUnbroken(s: string, cur: string)
    requires Unbroken(s)
    ensures TokensFrom(s, cur) == Flush(cur + s)
    decreases |s|
  {
    if s == "" {
      assert cur + s == cur;
    } else {
      assert s[0] in s;
      assert cur + [s[0]] + s[1..] == cur + s;
      TokensUnbroken(s[1..], cur + [s[0]]);
    }
  }

  lemma {:induction false} AllTokensOfSum(a: seq<string>, b: seq<string>)
    ensures AllTokens(a + b) == AllTokens(a) + AllTokens(b)
  {
    if b == [] {
      assert a + b == a;
    } else {
      assert (a + b)[..|a + b| - 1] == a + b[..|b| - 1];
      AllTokensOfSum(a, b[..|b| - 1]);
    }
  }

  lemma AllTokensOfOne(p: string)
    ensures AllTokens([p]) == Tokens(p)
  {
    assert [p][..0] == [];
  }

  /** The pieces between spaces, or between line breaks, hold the tokens. */
  lemma {:induction false} SplitTokens(s: string, sep: char, cur: string)
    requires IsGap(sep)
    ensures AllTokens(SplitFrom(s, sep, cur)) == Tokens(cur + s)
    decreases |s|
  {
    if s == "" {
      assert cur + s == cur;
      AllTokensOfOne(cur);
    } else if s[0] == sep {
      SplitTokens(s[1..], sep, "");
      assert "" + s[1..] == s[1..];
      AllTokensOfSum([cur], SplitFrom(s[1..], sep, ""));
      AllTokensOfOne(cur);
      assert cur + s == cur + [sep] + s[1..];
      TokensAtGap(cur, sep, s[1..], "");
    } else {
      assert cur + [s[0]] + s[1..] == cur + s;
      SplitTokens(s[1..], sep, cur + [s[0]]);
    }
  }

  lemma TokensAtBlankLine(a: string, b: string)
    ensures Tokens(a + "\n\n" + b) == Tokens(a) + Tokens(b)
  {
    assert a + "\n\n" + b == a + ['\n'] + ("\n" + b);
    TokensAtGap(a, '\n', "\n" + b, "");
    assert ("\n" + b)[1..] == b;
  }

  /** The pieces between blank lines hold the tokens. */
  lemma {:induction false} ParagraphTokens(s: string, cur: string)
    ensures AllTokens(ParagraphsFrom(s, cur)) == Tokens(cur + s)
    decreases |s|
  {
    if s == "" {
      assert cur + s == cur;
      AllTokensOfOne(cur);
    } else if |s| >= 2 && s[0] == '\n' && s[1] == '\n' {
      ParagraphTokens(s[2..], "");
      assert "" + s[2..] == s[2..];
      AllTokensOfSum([cur], ParagraphsFrom(s[2..], ""));
      AllTokensOfOne(cur);
      assert cur + s == cur + "\n\n" + s[2..];
      TokensAtBlankLine(cur, s[2..]);
    } else {
      assert cur + [s[0]] + s[1..] == cur + s;
      ParagraphTokens(s[1..], cur + [s[0]]);
    }
  }

  /** No piece holds what it was divided at, nor anything new. */
  lemma {:induction false} PieceChars(s: string, sep: char, cur: string, p: string)
    requires sep !in cur && p in SplitFrom(s, sep, cur)
    ensures sep !in p && forall c :: c in p ==> c in cur || c in s
    decreases |s|
  {
    if s != "" {
      assert s == [s[0]] + s[1..];
      if s[0] == sep {
        if p != cur {
          PieceChars(s[1..], sep, "", p);
        }
      } else {
        PieceChars(s[1..], sep, cur + [s[0]], p);
      }
    }
  }

  /** The tokens that are not white space alone. */
  function Solid(ts: seq<string>): seq<string> {
    if ts == [] then [] else
      Solid(ts[..|ts| - 1]) + if IsBlank(ts[|ts| - 1]) then [] else [ts[|ts| - 1]]
  }

  lemma {:induction false} SolidOfSum(a: seq<string>, b: seq<string>)
    ensures Solid(a + b) == Solid(a) + Solid(b)
  {
    if b == [] {
      assert a + b == a;
    } else {
      assert (a + b)[..|a + b| - 1] == a + b[..|b| - 1];
      SolidOfSum(a, b[..|b| - 1]);
    }
  }

  /** A token holds only characters of the text, and is no longer than it. */
  lemma {:induction false} TokenIsSmall(s: string, cur: string, t: string)
    requires Unbroken(cur) && t in TokensFrom(s, cur)
    ensures t != "" && Unbroken(t) && Units(t) <= Units(cur) + Units(s) && forall c :: c in t ==> c in cur || c in s
    decreases |s|
  {
    if s != "" {
      assert s == [s[0]] + s[1..];
      UnitsOfSum([s[0]], s[1..]);
      if IsGap(s[0]) {
        if t !in Flush(cur) {
          TokenIsSmall(s[1..], "", t);
        }
      } else {
        UnitsOfSum(cur, [s[0]]);
        TokenIsSmall(s[1..], cur + [s[0]], t);
      }
    }
  }

  /** A text of white space has none but blank tokens. */
  lemma {:induction false} BlankTokens(s: string)
    requires IsBlank(s)
    ensures Solid(Tokens(s)) == []
  {
    forall t | t in Tokens(s)
      ensures IsBlank(t)
    {
      TokenIsSmall(s, "", t);
    }
    SolidOfBlank(Tokens(s));
  }

  lemma {:induction false} SolidOfBlank(ts: seq<string>)
    requires forall t :: t in ts ==> IsBlank(t)
    ensures Solid(ts) == []
  {
    if ts != [] {
      SolidOfBlank(ts[..|ts| - 1]);
    }
  }

  // ─── Breaking what does not fit ─────────────────────────────────────────

  /** A word cut between characters, as late as the limit allows. */
  function Chunks(rest: string, cur: string, max: nat): seq<string> {
    if rest == "" then Flush(cur)
    else if cur != "" && Units(cur) + Width(rest[0]) > max then [cur] + Chunks(rest[1..], [rest[0]], max)
    else Chunks(rest[1..], cur + [rest[0]], max)
  }

  function BreakOne(t: string, max: nat): seq<string> { if Units(t) <= max then [t] else Chunks(t, "", max) }

  /** The tokens, each that is longer than the limit cut between characters. */
  function Break(ts: seq<string>, max: nat): seq<string> {
    if ts == [] then [] else Break(ts[..|ts| - 1], max) + BreakOne(ts[|ts| - 1], max)
  }

  lemma {:induction false} BreakOfSum(a: seq<string>, b: seq<string>, max: nat)
    ensures Break(a + b, max) == Break(a, max) + Break(b, max)
  {
    if b == [] {
      assert a + b == a;
    } else {
      assert (a + b)[..|a + b| - 1] == a + b[..|b| - 1];
      BreakOfSum(a, b[..|b| - 1], max);
    }
  }

  lemma {:induction false} BreakOfFitting(ts: seq<string>, max: nat)
    requires forall t :: t in ts ==> Units(t) <= max
    ensures Break(ts, max) == ts
  {
    if ts != [] {
      var front, last := ts[..|ts| - 1], ts[|ts| - 1];
      BreakOfFitting(front, max);
      assert BreakOne(last, max) == [last];
      assert ts == front + [last];
    }
  }

  /** Within the limit, or one character wider than it. */
  predicate Fits(s: string, max: nat) { Units(s) <= max || |s| == 1 }

  /** The chunks of a word fit, are not empty, and put together are the word. */
  lemma {:induction false} ChunksAreTheWord(rest: string, cur: string, max: nat)
    requires Fits(cur, max)
    ensures Concat(Chunks(rest, cur, max)) == cur + rest
    ensures forall c :: c in Chunks(rest, cur, max) ==> Fits(c, max) && c != ""
    decreases |rest|
  {
    if rest == "" {
      assert cur + rest == cur;
      ConcatOfOne(cur);
    } else if cur != "" && Units(cur) + Width(rest[0]) > max {
      ChunksAreTheWord(rest[1..], [rest[0]], max);
      assert ([cur] + Chunks(rest[1..], [rest[0]], max))[1..] == Chunks(rest[1..], [rest[0]], max);
      assert cur + ([rest[0]] + rest[1..]) == cur + rest;
    } else {
      assert (cur + [rest[0]])[..|cur|] == cur;
      assert cur + [rest[0]] + rest[1..] == cur + rest;
      ChunksAreTheWord(rest[1..], cur + [rest[0]], max);
    }
  }

  function Concat(ps: seq<string>): string { if ps == [] then "" else ps[0] + Concat(ps[1..]) }

  lemma ConcatOfOne(p: string)
    ensures Concat([p]) == p
  {
    assert [p][1..] == [];
  }

  lemma {:induction false} ConcatOfSum(a: seq<string>, b: seq<string>)
    ensures Concat(a + b) == Concat(a) + Concat(b)
  {
    if a == [] {
      assert a + b == b;
    } else {
      assert (a + b)[1..] == a[1..] + b;
      ConcatOfSum(a[1..], b);
    }
  }

  // ─── What is kept ───────────────────────────────────────────────────────

  /** The characters that are not white space, in order. */
  function Ink(s: string): string {
    if s == "" then "" else Ink(s[..|s| - 1]) + if IsWhitespace(s[|s| - 1]) then "" else [s[|s| - 1]]
  }

  lemma {:induction false} InkOfSum(a: string, b: string)
    ensures Ink(a + b) == Ink(a) + Ink(b)
  {
    if b == "" {
      assert a + b == a;
    } else {
      assert (a + b)[..|a + b| - 1] == a + b[..|b| - 1];
      InkOfSum(a, b[..|b| - 1]);
    }
  }

  lemma {:induction false} InkOfBlank(s: string)
    requires IsBlank(s)
    ensures Ink(s) == ""
  {
    if s != "" {
      InkOfBlank(s[..|s| - 1]);
      assert s[|s| - 1] in s;
    }
  }

  /** A text and its tokens hold the same ink. */
  lemma {:induction false} InkOfTokens(s: string, cur: string)
    ensures Ink(Concat(TokensFrom(s, cur))) == Ink(cur) + Ink(s)
    decreases |s|
  {
    if s == "" {
      ConcatOfOne(cur);
      assert Concat(Flush(cur)) == cur;
    } else {
      assert s == [s[0]] + s[1..];
      InkOfSum([s[0]], s[1..]);
      assert [s[0]][..0] == "";
      if IsGap(s[0]) {
        InkOfTokens(s[1..], "");
        ConcatOfSum(Flush(cur), TokensFrom(s[1..], ""));
        ConcatOfOne(cur);
        assert Concat(Flush(cur)) == cur;
        InkOfSum(cur, Concat(TokensFrom(s[1..], "")));
        assert Ink([s[0]]) == "" && Ink(s) == Ink(s[1..]);
      } else {
        InkOfTokens(s[1..], cur + [s[0]]);
        InkOfSum(cur, [s[0]]);
      }
    }
  }

  /** Blank tokens hold no ink. */
  lemma {:induction false} InkOfSolid(ts: seq<string>)
    ensures Ink(Concat(Solid(ts))) == Ink(Concat(ts))
  {
    if ts != [] {
      var front, last := ts[..|ts| - 1], ts[|ts| - 1];
      assert ts == front + [last];
      InkOfSolid(front);
      ConcatOfSum(front, [last]);
      ConcatOfOne(last);
      InkOfSum(Concat(front), last);
      if IsBlank(last) {
        InkOfBlank(last);
        assert Ink(Concat(front)) + "" == Ink(Concat(front));
        assert Solid(ts) == Solid(front);
      } else {
        ConcatOfSum(Solid(front), [last]);
        InkOfSum(Concat(Solid(front)), last);
      }
    }
  }

  /** Breaking adds nothing and loses nothing. */
  lemma {:induction false} ConcatOfBreak(ts: seq<string>, max: nat)
    ensures Concat(Break(ts, max)) == Concat(ts)
  {
    if ts != [] {
      var front, last := ts[..|ts| - 1], ts[|ts| - 1];
      assert ts == front + [last];
      ConcatOfBreak(front, max);
      ConcatOfSum(front, [last]);
      ConcatOfSum(Break(front, max), BreakOne(last, max));
      assert [last][1..] == [];
      ChunksAreTheWord(last, "", max);
      assert "" + last == last;
    }
  }

  /** The ink of the parts, one after the other. */
  function InkOfAll(parts: seq<string>): string {
    if parts == [] then "" else InkOfAll(parts[..|parts| - 1]) + Ink(parts[|parts| - 1])
  }

  lemma {:induction false} InkOfAllTokens(parts: seq<string>)
    ensures InkOfAll(parts) == Ink(Concat(AllTokens(parts)))
  {
    if parts != [] {
      var front, last := parts[..|parts| - 1], parts[|parts| - 1];
      InkOfAllTokens(front);
      ConcatOfSum(AllTokens(front), Tokens(last));
      InkOfSum(Concat(AllTokens(front)), Concat(Tokens(last)));
      InkOfTokens(last, "");
    }
  }
}
