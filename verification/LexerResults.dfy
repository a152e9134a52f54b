/**
 Lexing from the end of the first word, as a subcommand's arguments are; and
 which flag names can be typed, against the check at build time.
 */
module LexerResults {
  import opened Wrappers
  import opened Texts
  import opened Lexer

  // ─── Going on from the first word ───────────────────────────────────────

  function Shifted(words: seq<Word>, shift: nat): seq<Word> {
    if words == [] then [] else [words[0].(end := words[0].end + shift)] + Shifted(words[1..], shift)
  }

  lemma LexHead(text: string, at: nat, s: Scan)
    requires text != ""
    ensures Ends(s, text[0]) ==> Lex(text, at, s) == [Finished(s, at)] + Lex(text[1..], at + 1, FRESH)
    ensures !Ends(s, text[0]) ==> Lex(text, at, s) == Lex(text[1..], at + 1, Reading(s, text[0]))
  {
  }

  lemma ShiftedMore(w: Word, rest: seq<Word>, shift: nat)
    ensures Shifted([w] + rest, shift) == [w.(end := w.end + shift)] + Shifted(rest, shift)
  {
    assert ([w] + rest)[1..] == rest;
  }

  lemma {:induction false} LexShifts(text: string, at: nat, shift: nat, s: Scan)
    ensures Lex(text, at + shift, s) == Shifted(Lex(text, at, s), shift)
    decreases |text|
  {
    if text == "" {
      ShiftedMore(Finished(s, at), [], shift);
      assert [Finished(s, at)] + [] == [Finished(s, at)];
    } else {
      var next := Reading(s, text[0]);
      LexShifts(text[1..], at + 1, shift, next);
      LexHead(text, at, s);
      LexHead(text, at + shift, s);
      ShiftedMore(Finished(s, at), Lex(text[1..], at + 1, next), shift);
    }
  }

  /** The words after the first are those lexed from where it ends. */
  ghost predicate GoesOn(text: string, at: nat, words: seq<Word>) {
    && words != [] && at <= words[0].end <= at + |text|
    && words[1..] == Lex(text[words[0].end - at..], words[0].end, FRESH)
  }

  lemma GoesOnLater(text: string, at: nat, words: seq<Word>)
    requires text != "" && GoesOn(text[1..], at + 1, words)
    ensures GoesOn(text, at, words)
  {
    var end := words[0].end;
    assert text[1..][end - (at + 1)..] == text[end - at..];
  }

  lemma GoesOnHere(text: string, at: nat, w: Word)
    requires text != "" && IsWhitespace(text[0]) && w.end == at
    ensures GoesOn(text, at, [w] + Lex(text[1..], at + 1, FRESH))
  {
    assert Closer(text[0]).None?;
    LexHead(text, at, FRESH);
    assert text[0..] == text;
    assert ([w] + Lex(text[1..], at + 1, FRESH))[1..] == Lex(text[1..], at + 1, FRESH);
  }

  lemma {:induction false} LexFromFirstEnd(text: string, at: nat, s: Scan)
    requires Lex(text, at, s) != []
    ensures GoesOn(text, at, Lex(text, at, s))
    decreases |text|
  {
    if text == "" {
      assert [Finished(s, at)][1..] == [];
    } else {
      LexHead(text, at, s);
      if Ends(s, text[0]) {
        GoesOnHere(text, at, Finished(s, at));
      } else {
        LexFromFirstEnd(text[1..], at + 1, Reading(s, text[0]));
        GoesOnLater(text, at, Lex(text, at, s));
      }
    }
  }

  /** Lexing again from the end of the first word gives exactly the others. */
  lemma RestartsAtWordEnd(raw: string)
    requires WordsOf(raw) != []
    ensures var end := WordsOf(raw)[0].end;
            (end <= |raw| && WordsOf(raw)[1..] == Shifted(WordsOf(raw[end..]), end))
  {
    LexFromFirstEnd(raw, 0, FRESH);
    var end := WordsOf(raw)[0].end;
    LexShifts(raw[end..], 0, end, FRESH);
  }

  lemma {:induction false} SortedIgnoresEnds(words: seq<Word>, shift: nat, ended: bool)
    ensures Sorted(Shifted(words, shift), ended) == Sorted(words, ended)
    decreases |words|
  {
    if words != [] {
      var w := words[0];
      assert Shifted(words, shift)[1..] == Shifted(words[1..], shift);
      assert FlagOf(w.(end := w.end + shift)) == FlagOf(w);
      SortedIgnoresEnds(words[1..], shift, ended);
      SortedIgnoresEnds(words[1..], shift, true);
    }
  }

  predicate Trimmed(s: string) { s == "" || (!IsWhitespace(s[0]) && !IsWhitespace(s[|s| - 1])) }

  lemma {:induction false} TrimEndTrims(s: string)
    requires s == "" || !IsWhitespace(s[0])
    ensures Trimmed(TrimEnd(s))
  {
    if s != "" && IsWhitespace(s[|s| - 1]) {
      TrimEndTrims(s[..|s| - 1]);
    }
  }

  lemma {:induction false} TrimTrims(s: string)
    ensures Trimmed(Trim(s))
  {
    if s != "" && IsWhitespace(s[0]) {
      TrimTrims(s[1..]);
    } else {
      TrimEndTrims(s);
    }
  }

  /** One space in front moves the words, and no more. */
  lemma OneSpace(s: string, at: nat)
    requires s != "" && IsWhitespace(s[0])
    ensures Trim(s) == Trim(s[1..]) && Lex(s, at, FRESH) == Shifted(Lex(s[1..], at, FRESH), 1)
  {
    LexHead(s, at, FRESH);
    LexShifts(s[1..], at, 1, FRESH);
  }

  /** White space before the first word is nothing. */
  lemma {:induction false} LeadingSpace(s: string, at: nat, ended: bool)
    requires s == "" || !IsWhitespace(s[|s| - 1])
    ensures Sorted(Lex(Trim(s), at, FRESH), ended) == Sorted(Lex(s, at, FRESH), ended)
    decreases |s|
  {
    if s != "" && IsWhitespace(s[0]) {
      LeadingSpace(s[1..], at, ended);
      OneSpace(s, at);
      SortedIgnoresEnds(Lex(s[1..], at, FRESH), 1, ended);
    } else {
      TrimKeeps(s);
    }
  }

  /** An argument's raw text is always trimmed. */
  lemma RawIsTrimmed(typed: string, readFlags: bool)
    ensures Trimmed(ArgsOf(typed, readFlags).raw)
  {
    TrimTrims(typed);
  }

  /** A subcommand's arguments, read in its own mode, are the words after its
      name, whatever was typed and whatever mode its parent's were read in. */
  lemma SubcommandArguments(typed: string, parentReads: bool, readFlags: bool)
    requires SplitFirst(ArgsOf(typed, parentReads)).Some?
    ensures var args := ArgsOf(typed, parentReads);
            var (first, rest) := SplitFirst(args).value;
            var read := ArgsOf(rest, readFlags);
            (WordsOf(args.raw)[0].text == first
             && (read.items, read.flags) == Sorted(WordsOf(args.raw)[1..], !readFlags))
  {
    var raw := ArgsOf(typed, parentReads).raw;
    var end := WordsOf(raw)[0].end;
    var rest := raw[end..];
    RawIsTrimmed(typed, parentReads);
    RestartsAtWordEnd(raw);
    SortedIgnoresEnds(WordsOf(rest), end, !readFlags);
    LeadingSpace(rest, 0, !readFlags);
  }

  // ─── The first word ─────────────────────────────────────────────────────

  /** A word in which a quote was opened is a quoted one. */
  lemma {:induction false} QuotedStays(text: string, at: nat, s: Scan)
    requires s.started && s.unquoted.Some?
    ensures Lex(text, at, s) != [] && Lex(text, at, s)[0].quoted
    decreases |text|
  {
    if text != "" && !Ends(s, text[0]) {
      LexHead(text, at, s);
      QuotedStays(text[1..], at + 1, Reading(s, text[0]));
    }
  }

  lemma FirstWordAt(raw: string, n: nat, s: Scan)
    requires n < |raw| && s.closing.None? && s.unquoted.None? && s.started
    ensures IsWhitespace(raw[n]) && Closer(raw[n]).None? ==>
              Lex(raw[n..], n, s) != [] && Lex(raw[n..], n, s)[0] == Word(s.current, |s.current|, false, n)
    ensures Closer(raw[n]).Some? ==> Lex(raw[n..], n, s) != [] && Lex(raw[n..], n, s)[0].quoted
  {
    LexHead(raw[n..], n, s);
    if Closer(raw[n]).Some? {
      QuotedStays(raw[n..][1..], n + 1, Reading(s, raw[n]));
    }
  }

  /** How many characters `raw` has before its first space or quote. */
  ghost predicate PlainUpTo(raw: string, n: nat) {
    n <= |raw| && (forall k :: 0 <= k < n ==> Plain(raw[k])) && (n < |raw| ==> !Plain(raw[n]))
  }

  lemma LexFromPlain(raw: string, n: nat)
    requires n <= |raw| && forall k :: 0 <= k < n ==> Plain(raw[k])
    ensures WordsOf(raw) == Lex(raw[n..], n, Scan(raw[..n], None, n > 0, None))
  {
    assert raw[..n] + raw[n..] == raw && "" + raw[..n] == raw[..n];
    LexPlain(raw[..n], raw[n..], 0, FRESH);
  }

  /** A first word typed outside quotes: it ends at `n`, before a space or at the end. */
  lemma FirstIsPlain(raw: string, n: nat)
    requires PlainUpTo(raw, n) && n > 0 && (n < |raw| ==> IsWhitespace(raw[n]))
    ensures WordsOf(raw) != [] && WordsOf(raw)[0] == Word(raw[..n], n, false, n)
  {
    LexFromPlain(raw, n);
    if n < |raw| {
      FirstWordAt(raw, n, Scan(raw[..n], None, true, None));
    }
  }

  /** One in which a quote comes first. */
  lemma FirstIsQuoted(raw: string, n: nat)
    requires PlainUpTo(raw, n) && n < |raw| && !IsWhitespace(raw[n])
    ensures WordsOf(raw) != [] && WordsOf(raw)[0].quoted
  {
    LexFromPlain(raw, n);
    if n == 0 {
      LexHead(raw, 0, FRESH);
      QuotedStays(raw[1..], 1, Reading(FRESH, raw[0]));
    } else {
      FirstWordAt(raw, n, Scan(raw[..n], None, true, None));
    }
  }

  /** A subcommand is looked up by all that was typed before the first space, with
      all the text after it; but not if a quote comes before any space, or nothing
      was typed. */
  lemma SplitsAtFirstSpace(typed: string, parentReads: bool, n: nat)
    requires PlainUpTo(ArgsOf(typed, parentReads).raw, n)
    ensures var args := ArgsOf(typed, parentReads);
            SplitFirst(args) == if n == 0 || (n < |args.raw| && !IsWhitespace(args.raw[n])) then None
                                else Some((args.raw[..n], args.raw[n..]))
  {
    var raw := ArgsOf(typed, parentReads).raw;
    RawIsTrimmed(typed, parentReads);
    if n < |raw| && !IsWhitespace(raw[n]) {
      FirstIsQuoted(raw, n);
    } else if n > 0 {
      FirstIsPlain(raw, n);
    }
  }

  // ─── Names that can be typed ────────────────────────────────────────────

  /** What was typed before a word's first quote holds no space and no quote. */
  ghost predicate WordOk(w: Word) {
    && w.unquoted <= |w.text| && (!w.quoted ==> w.unquoted == |w.text|)
    && forall i :: 0 <= i < w.unquoted ==> Plain(w.text[i])
  }

  ghost predicate ScanOk(s: Scan) {
    && (s.unquoted.None? ==> s.closing.None?)
    && WordOk(Finished(s, 0))
  }

  lemma ReadingOk(s: Scan, c: char)
    requires ScanOk(s)
    ensures ScanOk(Reading(s, c))
  {
  }

  lemma {:induction false} LexedOk(text: string, at: nat, s: Scan)
    requires ScanOk(s)
    ensures forall w :: w in Lex(text, at, s) ==> WordOk(w)
    decreases |text|
  {
    if text != "" {
      ReadingOk(s, text[0]);
      LexedOk(text[1..], at + 1, Reading(s, text[0]));
    }
  }

  lemma FlagIsTypeable(w: Word)
    requires WordOk(w) && FlagOf(w).Some?
    ensures Typeable(FlagOf(w).value.name)
  {
    var dashes := Dashes(w.text).value;
    var body := w.text[dashes..];
    IndexIsFirst(body, '=');
    var name := FlagOf(w).value.name;
    assert name <= body;
    forall c | c in name
      ensures Plain(c) && c != '='
    {
      var i :| 0 <= i < |name| && name[i] == c;
      assert w.text[dashes + i] == c;
    }
  }

  lemma {:induction false} SortedFlagsTypeable(words: seq<Word>, ended: bool)
    requires forall w :: w in words ==> WordOk(w)
    ensures forall f :: f in Sorted(words, ended).1 ==> Typeable(f.name)
  {
    if words != [] {
      assert words[0] in words && forall w :: w in words[1..] ==> w in words;
      SortedFlagsTypeable(words[1..], ended);
      SortedFlagsTypeable(words[1..], true);
      if FlagOf(words[0]).Some? {
        FlagIsTypeable(words[0]);
      }
    }
  }

  /** Typing `raw` gives the flag `name`. */
  ghost predicate ReadAsFlag(raw: string, name: string) {
    exists f :: f in ArgsOf(raw, true).flags && f.name == name
  }

  lemma ReadFlagsAreTypeable(raw: string, name: string)
    requires ReadAsFlag(raw, name)
    ensures Typeable(name)
  {
    assert ScanOk(FRESH);
    LexedOk(Trim(raw), 0, FRESH);
    SortedFlagsTypeable(WordsOf(Trim(raw)), false);
  }

  lemma TypeableIsRead(name: string)
    requires Typeable(name)
    ensures ReadAsFlag("--" + name, name)
  {
    var t := Flagged(name, None, false);
    var ts := [t];
    TypedReadsBack(ts, true);
    assert ts[1..] == [];
    assert Line(ts) == "--" + name by { assert "--" + name + "" + "" == "--" + name; }
    assert ArgsOf("--" + name, true).flags == [Flag(name, None)];
    assert Flag(name, None) in ArgsOf("--" + name, true).flags;
  }

  /** What the build accepts as a flag's name. */
  predicate Accepts(name: string) {
    && name != "" && !Dashed(name[0])
    && forall c :: c in name ==> !IsWhitespace(c) && c !in {'=', QUOTE, OPENING, CLOSING}
  }

  /** The names that can be typed are exactly these, and the build accepts those
      of them that hold no closing curly quote. */
  lemma AcceptedExactly(name: string)
    ensures (exists raw :: ReadAsFlag(raw, name)) <==> Typeable(name)
    ensures Accepts(name) <==> (exists raw :: ReadAsFlag(raw, name)) && CLOSING !in name
  {
    if Typeable(name) {
      TypeableIsRead(name);
    }
    if raw :| ReadAsFlag(raw, name) {
      ReadFlagsAreTypeable(raw, name);
    }
  }

  /** The build refuses a name that can be typed. */
  lemma RefusedThoughTyped()
    ensures var name := ['a', CLOSING];
            ReadAsFlag("--" + name, name) && !Accepts(name)
  {
    var name := ['a', CLOSING];
    assert CLOSING in name;
    assert Typeable(name);
    TypeableIsRead(name);
  }

  // ─── The check at build time ────────────────────────────────────────────

  datatype GuardError = ZeroCooldown | NoCooldownStore | CannotBeTyped(flag: string) | DeclaredTwice(flag: string)

  predicate GuardsOk(cooldown: Option<nat>, hasStore: bool, flags: seq<string>) {
    && (cooldown.Some? ==> cooldown.value > 0 && hasStore)
    && (forall i :: 0 <= i < |flags| ==> Accepts(flags[i]))
    && forall i, j :: 0 <= i < j < |flags| ==> flags[i] != flags[j]
  }

  /** Succeeds on exactly the sound declarations, and names the first fault of any
      other. */
  method CheckGuards(cooldown: Option<nat>, hasStore: bool, flags: seq<string>) returns (r: Result<(), GuardError>)
    ensures r.Ok? <==> GuardsOk(cooldown, hasStore, flags)
    ensures r == Err(ZeroCooldown) <==> cooldown == Some(0)
    ensures r == Err(NoCooldownStore) <==> cooldown.Some? && cooldown.value > 0 && !hasStore
    ensures r.Err? && r.error.CannotBeTyped? ==> r.error.flag in flags && !Accepts(r.error.flag)
    ensures r.Err? && r.error.DeclaredTwice? ==>
              exists i, j :: 0 <= i < j < |flags| && flags[i] == flags[j] == r.error.flag
  {
    if cooldown.Some? {
      if cooldown.value == 0 {
        return Err(ZeroCooldown);
      }
      if !hasStore {
        return Err(NoCooldownStore);
      }
    }
    var i := 0;
    while i < |flags|
      invariant 0 <= i <= |flags|
      invariant forall k :: 0 <= k < i ==> Accepts(flags[k])
      invariant forall j, k :: 0 <= j < k < i ==> flags[j] != flags[k]
    {
      if !Accepts(flags[i]) {
        return Err(CannotBeTyped(flags[i]));
      }
      if flags[i] in flags[..i] {
        return Err(DeclaredTwice(flags[i]));
      }
      assert forall k :: 0 <= k < i ==> flags[k] in flags[..i];
      i := i + 1;
    }
    r := Ok(());
  }
}
