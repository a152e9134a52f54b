/**
 The argument lexer: words apart at white space, quoted strings kept whole,
 flags read apart from the positional arguments.

 Offsets count characters where the program counts bytes.
 */
module Lexer {
  import opened Wrappers
  import opened Texts

  const QUOTE := '"'
  const OPENING := '\U{201C}'
  const CLOSING := '\U{201D}'
  const EM_DASH := '\U{2014}'

  datatype Flag = Flag(name: string, value: Option<string>)

  /** One word as split: `unquoted` is how much of it was typed before its first
      quote, `end` the offset just past it. */
  datatype Word = Word(text: string, unquoted: nat, quoted: bool, end: nat)

  datatype Args = Args(raw: string, items: seq<string>, flags: seq<Flag>)

  /** The word being read. */
  datatype Scan = Scan(current: string, unquoted: Option<nat>, started: bool, closing: Option<char>)

  const FRESH := Scan("", None, false, None)

  function Closer(c: char): Option<char> {
    if c == QUOTE then Some(QUOTE) else if c == OPENING then Some(CLOSING) else None
  }

  function Finished(s: Scan, end: nat): Word {
    Word(s.current, if s.unquoted.Some? then s.unquoted.value else |s.current|, s.unquoted.Some?, end)
  }

  /** The word being read, one character later. */
  function Reading(s: Scan, c: char): Scan {
    if s.closing.Some? then
      if c == s.closing.value then s.(closing := None) else s.(current := s.current + [c])
    else if Closer(c).Some? then
      s.(closing := Closer(c), unquoted := if s.unquoted.Some? then s.unquoted else Some(|s.current|), started := true)
    else if IsWhitespace(c) then
      if s.started then FRESH else s
    else s.(current := s.current + [c], started := true)
  }

  /** Whether that character ends the word. */
  predicate Ends(s: Scan, c: char) { s.closing.None? && Closer(c).None? && IsWhitespace(c) && s.started }

  /** The words of `text`, which starts at offset `at`, when `s` has been read
      of the first. */
  function Lex(text: string, at: nat, s: Scan): seq<Word> {
    if text == "" then (if s.started then [Finished(s, at)] else [])
    else (if Ends(s, text[0]) then [Finished(s, at)] else []) + Lex(text[1..], at + 1, Reading(s, text[0]))
  }

  function WordsOf(raw: string): seq<Word> { Lex(raw, 0, FRESH) }

  lemma LexOn(raw: string, at: nat, s: Scan)
    requires at < |raw|
    ensures Ends(s, raw[at]) ==> Lex(raw[at..], at, s) == [Finished(s, at)] + Lex(raw[at + 1..], at + 1, FRESH)
    ensures !Ends(s, raw[at]) ==> Lex(raw[at..], at, s) == Lex(raw[at + 1..], at + 1, Reading(s, raw[at]))
  {
    assert raw[at..][1..] == raw[at + 1..];
  }

  lemma Moved<T>(done: seq<T>, x: T, rest: seq<T>)
    ensures done + ([x] + rest) == done + [x] + rest
  {
  }

  /** One pass over the characters, keeping the word being read: what it has
      finished and what is left always make up the lexed words of the whole. */
  method Words(raw: string) returns (words: seq<Word>)
    ensures words == WordsOf(raw)
  {
    words := [];
    ghost var all := WordsOf(raw);
    var s, at := FRESH, 0;
    while at < |raw|
      invariant 0 <= at <= |raw| && (!s.started ==> s == FRESH)
      invariant words + Lex(raw[at..], at, s) == all
    {
      var c := raw[at];
      LexOn(raw, at, s);
      if s.closing.Some? {
        if c == s.closing.value {
          s := s.(closing := None);
        } else {
          s := s.(current := s.current + [c]);
        }
      } else if Closer(c).Some? {
        s := s.(closing := Closer(c), unquoted := if s.unquoted.Some? then s.unquoted else Some(|s.current|), started := true);
      } else if IsWhitespace(c) {
        if s.started {
          Moved(words, Finished(s, at), Lex(raw[at + 1..], at + 1, FRESH));
          words, s := words + [Finished(s, at)], FRESH;
        }
      } else {
        s := s.(current := s.current + [c], started := true);
      }
      at := at + 1;
    }
    if s.started {
      words := words + [Finished(s, at)];
    }
  }

  // ─── Flags ──────────────────────────────────────────────────────────────

  predicate Dashed(c: char) { c == '-' || c == EM_DASH }

  /** How many characters of the word are its dashes, if it has any. */
  function Dashes(text: string): Option<nat> {
    if |text| >= 2 && text[0] == '-' && text[1] == '-' then Some(2)
    else if text != "" && text[0] == EM_DASH then Some(1)
    else None
  }

  function IndexOf(s: string, c: char): Option<nat> {
    if s == "" then None
    else if s[0] == c then Some(0)
    else
      var rest := IndexOf(s[1..], c);
      if rest.Some? then Some(rest.value + 1) else None
  }

  lemma {:induction false} IndexIsFirst(s: string, c: char)
    ensures IndexOf(s, c).None? <==> c !in s
    ensures IndexOf(s, c).Some? ==>
              IndexOf(s, c).value < |s| && s[IndexOf(s, c).value] == c && c !in s[..IndexOf(s, c).value]
  {
    if s != "" {
      IndexIsFirst(s[1..], c);
      assert s == [s[0]] + s[1..];
      if s[0] != c && IndexOf(s[1..], c).Some? {
        var k := IndexOf(s[1..], c).value;
        assert s[..k + 1] == [s[0]] + s[1..][..k];
      }
    }
  }

  /** A word reads as a flag if its dashes and name hold no quoted part; the value
      after `=`, where there is one, may. */
  function FlagOf(w: Word): Option<Flag> {
    var dashes := Dashes(w.text);
    if dashes.None? then None else
      var body := w.text[dashes.value..];
      var eq := IndexOf(body, '=');
      IndexIsFirst(body, '=');
      if eq.Some? && dashes.value + eq.value >= w.unquoted then None
      else if eq.None? && w.quoted then None
      else
        var name := if eq.Some? then body[..eq.value] else body;
        if name == "" || Dashed(name[0]) then None
        else Some(Flag(name, if eq.Some? then Some(body[eq.value + 1..]) else None))
  }

  /** The positional arguments and the flags of the words; `ended` once `--`
      was read, and from the start for a command that reads no flags. */
  function Sorted(words: seq<Word>, ended: bool): (seq<string>, seq<Flag>) {
    if words == [] then ([], []) else
      var w := words[0];
      if !ended && EndsFlags(w) then Sorted(words[1..], true)
      else
        var (items, flags) := Sorted(words[1..], ended);
        if !ended && FlagOf(w).Some? then (items, [FlagOf(w).value] + flags) else ([w.text] + items, flags)
  }

  function ArgsOf(raw: string, readFlags: bool): Args {
    var (items, flags) := Sorted(WordsOf(Trim(raw)), !readFlags);
    Args(Trim(raw), items, flags)
  }

  predicate EndsFlags(w: Word) { !w.quoted && w.text == "--" }

  lemma SortedOn(words: seq<Word>, k: nat, ended: bool)
    requires k < |words|
    ensures var w, next := words[k], Sorted(words[k + 1..], ended);
            var all := Sorted(words[k..], ended);
            && (!ended && EndsFlags(w) ==> all == Sorted(words[k + 1..], true))
            && (!ended && !EndsFlags(w) && FlagOf(w).Some? ==> all == (next.0, [FlagOf(w).value] + next.1))
            && (ended || (!EndsFlags(w) && FlagOf(w).None?) ==> all == ([w.text] + next.0, next.1))
  {
    assert words[k..][1..] == words[k + 1..];
  }

  method Split(raw: string, readFlags: bool) returns (args: Args)
    ensures args == ArgsOf(raw, readFlags)
  {
    var trimmed := Trim(raw);
    var words := Words(trimmed);
    ghost var all := Sorted(words, !readFlags);
    var items: seq<string>, flags: seq<Flag>, flagsEnded, k := [], [], !readFlags, 0;
    while k < |words|
      invariant 0 <= k <= |words|
      invariant items + Sorted(words[k..], flagsEnded).0 == all.0 && flags + Sorted(words[k..], flagsEnded).1 == all.1
    {
      var word := words[k];
      SortedOn(words, k, flagsEnded);
      ghost var next := Sorted(words[k + 1..], flagsEnded);
      k := k + 1;
      if !flagsEnded {
        if EndsFlags(word) {
          flagsEnded := true;
          continue;
        }
        var flag := FlagOf(word);
        if flag.Some? {
          Moved(flags, flag.value, next.1);
          flags := flags + [flag.value];
          continue;
        }
      }
      Moved(items, word.text, next.0);
      items := items + [word.text];
    }
    args := Args(trimmed, items, flags);
  }

  /** What a subcommand is looked up by, and the text left to it; nothing when
      there is no word, or a quoted one. */
  function SplitFirst(args: Args): Option<(string, string)> {
    var words := WordsOf(args.raw);
    if words == [] || words[0].quoted || words[0].end > |args.raw| then None
    else Some((words[0].text, args.raw[words[0].end..]))
  }

  /** A command reads flags if it declares one, or passes on any. */
  function ReadAs(declared: seq<string>, passUnknown: bool, raw: string): Args {
    ArgsOf(raw, declared != [] || passUnknown)
  }

  // ─── Typing and reading back ────────────────────────────────────────────

  /** What a user types: a quoted string (in straight or curly quotes), a flag
      with a quoted value or none (after two dashes or an em dash), or `--`. */
  datatype Typed =
    | Said(text: string, curly: bool)
    | Flagged(name: string, value: Option<string>, em: bool)
    | DoubleDash

  /** A name that can be typed as a flag's. */
  predicate Typeable(name: string) {
    && name != "" && !Dashed(name[0])
    && forall c :: c in name ==> !IsWhitespace(c) && c != '=' && c != QUOTE && c != OPENING
  }

  predicate CanType(t: Typed) {
    match t
    case Said(text, curly) => (if curly then CLOSING else QUOTE) !in text
    case Flagged(name, value, _) => Typeable(name) && (value.Some? ==> QUOTE !in value.value)
    case DoubleDash => true
  }

  function DashText(em: bool): string { if em then [EM_DASH] else "--" }

  function Quoted(text: string, curly: bool): string {
    if curly then [OPENING] + text + [CLOSING] else [QUOTE] + text + [QUOTE]
  }

  /** What is typed before the word's first quote. */
  function Prefix(t: Typed): string {
    match t
    case Said(_, _) => ""
    case Flagged(name, value, em) => DashText(em) + name + if value.Some? then "=" else ""
    case DoubleDash => "--"
  }

  function Typing(t: Typed): string {
    match t
    case Said(text, curly) => Quoted(text, curly)
    case Flagged(_, value, _) => if value.Some? then Prefix(t) + Quoted(value.value, false) else Prefix(t)
    case DoubleDash => "--"
  }

  function Line(ts: seq<Typed>): string {
    if ts == [] then "" else Typing(ts[0]) + if |ts| == 1 then "" else " " + Line(ts[1..])
  }

  function FlagText(name: string, value: Option<string>): string {
    if value.Some? then name + "=" + value.value else name
  }

  /** The word it is, without its quotes. */
  function Bare(t: Typed): string {
    match t
    case Said(text, _) => text
    case Flagged(name, value, em) => DashText(em) + FlagText(name, value)
    case DoubleDash => "--"
  }

  /** What reading it back should give: strings and, before `--` and in a command
      that reads them, flags. */
  function Expected(ts: seq<Typed>, ended: bool): (seq<string>, seq<Flag>) {
    if ts == [] then ([], []) else
      var (items, flags) := Expected(ts[1..], ended || ts[0].DoubleDash?);
      if !ended && ts[0].DoubleDash? then (items, flags)
      else if !ended && ts[0].Flagged? then (items, [Flag(ts[0].name, ts[0].value)] + flags)
      else ([Bare(ts[0])] + items, flags)
  }

  predicate Plain(c: char) { !IsWhitespace(c) && c != QUOTE && c != OPENING }

  lemma {:induction false} LexPlain(p: string, rest: string, at: nat, s: Scan)
    requires s.closing.None? && forall c :: c in p ==> Plain(c)
    ensures Lex(p + rest, at, s) == Lex(rest, at + |p|, s.(current := s.current + p, started := s.started || p != ""))
    decreases |p|
  {
    if p == "" {
      assert p + rest == rest && s.current + p == s.current;
    } else {
      assert p[0] in p && (p + rest)[1..] == p[1..] + rest;
      assert s.current + [p[0]] + p[1..] == s.current + p;
      LexPlain(p[1..], rest, at + 1, Reading(s, p[0]));
    }
  }

  lemma {:induction false} LexInside(p: string, rest: string, at: nat, s: Scan)
    requires s.closing.Some? && s.closing.value !in p
    ensures Lex(p + [s.closing.value] + rest, at, s) == Lex(rest, at + |p| + 1, s.(current := s.current + p, closing := None))
    decreases |p|
  {
    if p == "" {
      assert (p + [s.closing.value] + rest)[1..] == rest && s.current + p == s.current;
    } else {
      assert (p + [s.closing.value] + rest)[1..] == p[1..] + [s.closing.value] + rest;
      assert s.current + [p[0]] + p[1..] == s.current + p;
      LexInside(p[1..], rest, at + 1, Reading(s, p[0]));
    }
  }

  /** A quoted string goes on the word being read, as it is. */
  lemma LexQuoted(text: string, curly: bool, rest: string, at: nat, s: Scan)
    requires s.closing.None? && s.unquoted.None? && (if curly then CLOSING else QUOTE) !in text
    ensures Lex(Quoted(text, curly) + rest, at, s)
         == Lex(rest, at + |text| + 2, Scan(s.current + text, Some(|s.current|), true, None))
  {
    var open, close := if curly then OPENING else QUOTE, if curly then CLOSING else QUOTE;
    var all := Quoted(text, curly) + rest;
    assert all[0] == open && all[1..] == text + [close] + rest;
    assert Closer(open) == Some(close);
    LexInside(text, rest, at + 1, Reading(s, open));
  }

  /** The word it is read as. */
  function WordFor(t: Typed, end: nat): Word {
    Word(Bare(t), |Prefix(t)|, t.Said? || (t.Flagged? && t.value.Some?), end)
  }

  /** What is left of the line after one typed word. */
  function After(ts: seq<Typed>): string { if |ts| <= 1 then "" else " " + Line(ts[1..]) }

  /** A word being read ends with the text, or at a space. */
  lemma LexDone(rest: string, at: nat, s: Scan)
    requires s.closing.None? && s.started && (rest == "" || rest[0] == ' ')
    ensures Lex(rest, at, s) == [Finished(s, at)] + AfterSpace(rest, at)
  {
  }

  /** The words after the space that ended one. */
  function AfterSpace(rest: string, at: nat): seq<Word> {
    if rest == "" then [] else Lex(rest[1..], at + 1, FRESH)
  }

  lemma LexSaid(text: string, curly: bool, rest: string, at: nat)
    requires (if curly then CLOSING else QUOTE) !in text && (rest == "" || rest[0] == ' ')
    ensures Lex(Quoted(text, curly) + rest, at, FRESH) == [Word(text, 0, true, at + |text| + 2)] + AfterSpace(rest, at + |text| + 2)
  {
    LexQuoted(text, curly, rest, at, FRESH);
    assert "" + text == text;
    LexDone(rest, at + |text| + 2, Scan(text, Some(0), true, None));
  }

  lemma LexUnquoted(p: string, rest: string, at: nat)
    requires p != "" && (forall c :: c in p ==> Plain(c)) && (rest == "" || rest[0] == ' ')
    ensures Lex(p + rest, at, FRESH) == [Word(p, |p|, false, at + |p|)] + AfterSpace(rest, at + |p|)
  {
    LexPlain(p, rest, at, FRESH);
    assert "" + p == p;
    LexDone(rest, at + |p|, Scan(p, None, true, None));
  }

  lemma LexValued(p: string, value: string, rest: string, at: nat)
    requires p != "" && (forall c :: c in p ==> Plain(c)) && QUOTE !in value && (rest == "" || rest[0] == ' ')
    ensures var end := at + |p| + |value| + 2;
            (Lex(p + (Quoted(value, false) + rest), at, FRESH) == [Word(p + value, |p|, true, end)] + AfterSpace(rest, end))
  {
    LexPlain(p, Quoted(value, false) + rest, at, FRESH);
    assert "" + p == p;
    LexQuoted(value, false, rest, at + |p|, Scan(p, None, true, None));
    LexDone(rest, at + |p| + |value| + 2, Scan(p + value, Some(|p|), true, None));
  }

  lemma LexFlag(dashes: string, name: string, value: string, rest: string, at: nat)
    requires (forall c :: c in dashes ==> Plain(c)) && (forall c :: c in name ==> Plain(c)) && QUOTE !in value && (rest == "" || rest[0] == ' ')
    ensures var p := dashes + name + "=";
            var end := at + |p| + |value| + 2;
            (Lex(p + Quoted(value, false) + rest, at, FRESH)
             == [Word(dashes + (name + "=" + value), |p|, true, end)] + AfterSpace(rest, end))
  {
    var p := dashes + name + "=";
    LexValued(p, value, rest, at);
    assert p + (Quoted(value, false) + rest) == p + Quoted(value, false) + rest;
    assert p + value == dashes + (name + "=" + value);
  }

  lemma LexBareFlag(dashes: string, name: string, rest: string, at: nat)
    requires dashes != "" && (forall c :: c in dashes ==> Plain(c)) && (forall c :: c in name ==> Plain(c)) && (rest == "" || rest[0] == ' ')
    ensures var p := dashes + name + "";
            (Lex(p + rest, at, FRESH) == [Word(dashes + name, |p|, false, at + |p|)] + AfterSpace(rest, at + |p|))
  {
    LexUnquoted(dashes + name, rest, at);
    assert dashes + name + "" == dashes + name;
  }

  /** A typed word is read as one word, which ends where it does. */
  lemma LexOne(t: Typed, rest: string, at: nat)
    requires CanType(t) && (rest == "" || rest[0] == ' ')
    ensures Lex(Typing(t) + rest, at, FRESH) == [WordFor(t, at + |Typing(t)|)] + AfterSpace(rest, at + |Typing(t)|)
  {
    PlainDashes();
    match t
    case Said(text, curly) => LexSaid(text, curly, rest, at);
    case Flagged(name, value, em) =>
      if value.Some? {
        LexFlag(DashText(em), name, value.value, rest, at);
      } else {
        LexBareFlag(DashText(em), name, rest, at);
      }
    case DoubleDash => LexUnquoted("--", rest, at);
  }

  lemma PlainDashes()
    ensures (forall c :: c in "--" ==> Plain(c)) && forall c :: c in [EM_DASH] ==> Plain(c)
  {
  }

  /** The words a line is read as. */
  function WordsFor(ts: seq<Typed>, at: nat): seq<Word> {
    if ts == [] then [] else
      [WordFor(ts[0], at + |Typing(ts[0])|)] + WordsFor(ts[1..], at + |Typing(ts[0])| + 1)
  }

  lemma LexFirst(ts: seq<Typed>, at: nat, end: nat)
    requires ts != [] && CanType(ts[0]) && end == at + |Typing(ts[0])|
    ensures Lex(Line(ts), at, FRESH) == [WordFor(ts[0], end)] + AfterSpace(After(ts), end)
  {
    LexOne(ts[0], After(ts), at);
  }

  lemma AfterFirst(ts: seq<Typed>, end: nat)
    requires ts != []
    ensures AfterSpace(After(ts), end) == if |ts| == 1 then [] else Lex(Line(ts[1..]), end + 1, FRESH)
  {
    if |ts| > 1 {
      assert After(ts)[1..] == Line(ts[1..]);
    }
  }

  lemma {:induction false} LexLine(ts: seq<Typed>, at: nat)
    requires forall t :: t in ts ==> CanType(t)
    ensures Lex(Line(ts), at, FRESH) == WordsFor(ts, at)
    decreases |ts|
  {
    if ts != [] {
      var end := at + |Typing(ts[0])|;
      assert ts[0] in ts && forall t :: t in ts[1..] ==> t in ts;
      LexFirst(ts, at, end);
      AfterFirst(ts, end);
      LexLine(ts[1..], end + 1);
      assert |ts| == 1 ==> ts[1..] == [];
    }
  }

  lemma QuotedIsNoFlag(text: string, end: nat)
    ensures FlagOf(Word(text, 0, true, end)) == None
  {
  }

  lemma DoubleDashIsNoFlag(end: nat)
    ensures FlagOf(Word("--", 2, false, end)) == None
  {
    var text := "--";
    assert text[2..] == "";
  }

  lemma DashesOf(em: bool, rest: string)
    ensures Dashes(DashText(em) + rest) == Some(|DashText(em)|) && (DashText(em) + rest)[|DashText(em)|..] == rest
  {
  }

  lemma FlagAlone(name: string, em: bool, end: nat)
    requires Typeable(name)
    ensures FlagOf(Word(DashText(em) + name, |DashText(em) + name + ""|, false, end)) == Some(Flag(name, None))
  {
    DashesOf(em, name);
    IndexIsFirst(name, '=');
  }

  lemma FlagWithValue(name: string, value: string, em: bool, end: nat)
    requires Typeable(name)
    ensures FlagOf(Word(DashText(em) + (name + "=" + value), |DashText(em) + name + "="|, true, end)) == Some(Flag(name, Some(value)))
  {
    DashesOf(em, name + "=" + value);
    NameBeforeEquals(name, value);
  }

  /** A quoted string is no flag, even one written like a flag; a typed flag is
      that flag, its value as given. */
  lemma FlagReadsBack(t: Typed, end: nat)
    requires CanType(t)
    ensures FlagOf(WordFor(t, end)) == if t.Flagged? then Some(Flag(t.name, t.value)) else None
  {
    match t
    case Said(text, _) => QuotedIsNoFlag(text, end);
    case DoubleDash => DoubleDashIsNoFlag(end);
    case Flagged(name, value, em) =>
      if value.Some? {
        FlagWithValue(name, value.value, em, end);
      } else {
        FlagAlone(name, em, end);
      }
  }

  lemma NameBeforeEquals(name: string, value: string)
    requires '=' !in name
    ensures IndexOf(name + "=" + value, '=') == Some(|name|)
    ensures (name + "=" + value)[..|name|] == name && (name + "=" + value)[|name| + 1..] == value
  {
    var body := name + "=" + value;
    IndexIsFirst(body, '=');
    assert body[|name|] == '=' && body[|name|] in body;
    var k := IndexOf(body, '=').value;
    assert forall i :: 0 <= i < |name| ==> body[i] == name[i] && name[i] in name;
    assert forall i :: 0 <= i < k ==> body[i] in body[..k];
  }

  lemma {:induction false} SortedAsTyped(ts: seq<Typed>, at: nat, ended: bool)
    requires forall t :: t in ts ==> CanType(t)
    ensures Sorted(WordsFor(ts, at), ended) == Expected(ts, ended)
    decreases |ts|
  {
    if ts != [] {
      var t, next := ts[0], at + |Typing(ts[0])| + 1;
      assert t in ts && forall u :: u in ts[1..] ==> u in ts;
      var ws := WordsFor(ts, at);
      assert ws[0] == WordFor(t, next - 1) && ws[1..] == WordsFor(ts[1..], next);
      FlagReadsBack(t, next - 1);
      TypedWord(t);
      SortedAsTyped(ts[1..], next, ended || (!ended && t.DoubleDash?));
    }
  }

  /** Only `--` itself, typed outside quotes, is the word that ends the flags. */
  lemma TypedWord(t: Typed)
    requires CanType(t)
    ensures (!WordFor(t, 0).quoted && WordFor(t, 0).text == "--") <==> t.DoubleDash?
  {
    if t.Flagged? && t.value.None? {
      assert WordFor(t, 0).text == DashText(t.em) + t.name;
      if t.em {
        assert WordFor(t, 0).text[0] == EM_DASH;
      } else {
        assert |WordFor(t, 0).text| > 2;
      }
    }
  }

  lemma TrimKeeps(s: string)
    requires s == "" || (!IsWhitespace(s[0]) && !IsWhitespace(s[|s| - 1]))
    ensures Trim(s) == s
  {
  }

  lemma {:induction false} LineEnds(ts: seq<Typed>)
    requires ts != [] && forall t :: t in ts ==> CanType(t)
    ensures Line(ts) != "" && !IsWhitespace(Line(ts)[0]) && !IsWhitespace(Line(ts)[|Line(ts)| - 1])
    decreases |ts|
  {
    assert ts[0] in ts;
    TypingEnds(ts[0]);
    if |ts| > 1 {
      assert forall t :: t in ts[1..] ==> t in ts;
      LineEnds(ts[1..]);
    }
  }

  lemma TypingEnds(t: Typed)
    requires CanType(t)
    ensures Typing(t) != "" && !IsWhitespace(Typing(t)[0]) && !IsWhitespace(Typing(t)[|Typing(t)| - 1])
  {
    if t.Flagged? {
      assert Typing(t)[0] == DashText(t.em)[0];
      if t.value.None? {
        assert Typing(t)[|Typing(t)| - 1] == t.name[|t.name| - 1];
        assert t.name[|t.name| - 1] in t.name;
      }
    }
  }

  /** Whatever is typed reads back: strings as the positional arguments they
      are, flags as flags, in the order typed, whether or not the command reads
      flags. */
  lemma TypedReadsBack(ts: seq<Typed>, readFlags: bool)
    requires forall t :: t in ts ==> CanType(t)
    ensures var args := ArgsOf(Line(ts), readFlags);
            (args.items, args.flags) == Expected(ts, !readFlags) && args.raw == Line(ts)
  {
    if ts != [] {
      LineEnds(ts);
    }
    TrimKeeps(Line(ts));
    LexLine(ts, 0);
    SortedAsTyped(ts, 0, !readFlags);
  }

  function Quotes(texts: seq<string>): seq<Typed> {
    if texts == [] then [] else [Said(texts[0], false)] + Quotes(texts[1..])
  }

  /** Quoting any strings free of quotes and joining them with spaces reads back
      as exactly those positional arguments, in both modes. */
  lemma {:induction false} QuotedStringsReadBack(texts: seq<string>, readFlags: bool)
    requires forall t :: t in texts ==> QUOTE !in t
    ensures ArgsOf(Line(Quotes(texts)), readFlags) == Args(Line(Quotes(texts)), texts, [])
  {
    QuotesAreTyped(texts, !readFlags);
    TypedReadsBack(Quotes(texts), readFlags);
  }

  lemma {:induction false} QuotesAreTyped(texts: seq<string>, ended: bool)
    requires forall t :: t in texts ==> QUOTE !in t
    ensures forall t :: t in Quotes(texts) ==> CanType(t)
    ensures Expected(Quotes(texts), ended) == (texts, [])
  {
    if texts != [] {
      assert texts[0] in texts && forall t :: t in texts[1..] ==> t in texts;
      QuotesAreTyped(texts[1..], ended);
      assert Quotes(texts)[1..] == Quotes(texts[1..]);
      assert texts == [texts[0]] + texts[1..];
    }
  }
}
