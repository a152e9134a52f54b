/**
 What a router of accepted commands does with each message, told by the
 commands themselves.
 */
module RoutingResults {
  import opened Wrappers
  import opened Lexer
  import opened Routers
  import opened Routing

  /** The word is the command's name or one of its aliases, in the parser's form. */
  ghost predicate Calls(normalize: string -> string, c: Command, word: string) {
    word == normalize(c.name) || exists a :: a in c.aliases && word == normalize(a)
  }

  ghost predicate CallsNone(normalize: string -> string, cs: seq<Command>, word: string) {
    forall i :: 0 <= i < |cs| ==> !Calls(normalize, cs[i], word)
  }

  lemma {:induction false} MappedHolds(normalize: string -> string, words: seq<string>, word: string)
    ensures word in Mapped(normalize, words) <==> exists a :: a in words && word == normalize(a)
  {
    if words != [] {
      var front, last := words[..|words| - 1], words[|words| - 1];
      assert words == front + [last];
      MappedHolds(normalize, front, word);
    }
  }

  lemma NamesAreCalls(normalize: string -> string, c: Command, word: string)
    ensures word in NamesOf(normalize, c) <==> Calls(normalize, c, word)
  {
    MappedHolds(normalize, c.aliases, word);
  }

  /** A word in a router leads to the command it calls, and to none if it calls none. */
  lemma WordLeads(normalize: string -> string, hasStore: bool, cs: seq<Command>, word: string)
    requires Acceptable(normalize, hasStore, cs)
    ensures var byName := RouterOf(normalize, cs).byName;
            && (word in byName <==> !CallsNone(normalize, cs, word))
            && forall i :: 0 <= i < |cs| && Calls(normalize, cs[i], word) ==> word in byName && byName[word] == i
  {
    var byName := RouterOf(normalize, cs).byName;
    forall i | 0 <= i < |cs| && Calls(normalize, cs[i], word)
      ensures word in byName && byName[word] == i
    {
      NamesAreCalls(normalize, cs[i], word);
      WordsLeadHome(normalize, hasStore, cs, word, i);
    }
    if word in byName {
      WordsLeadHome(normalize, hasStore, cs, word, byName[word]);
      NamesAreCalls(normalize, cs[byName[word]], word);
    }
  }

  lemma SubWordLeads(normalize: string -> string, hasStore: bool, cs: seq<Command>, i: nat, word: string)
    requires Acceptable(normalize, hasStore, cs) && i < |cs|
    ensures var byName, subs := RouterOf(normalize, cs).subByName[i], cs[i].subcommands;
            && (word in byName <==> !CallsNone(normalize, subs, word))
            && forall j :: 0 <= j < |subs| && Calls(normalize, subs[j], word) ==> word in byName && byName[word] == j
  {
    var byName, subs := RouterOf(normalize, cs).subByName[i], cs[i].subcommands;
    forall j | 0 <= j < |subs| && Calls(normalize, subs[j], word)
      ensures word in byName && byName[word] == j
    {
      NamesAreCalls(normalize, subs[j], word);
      SubWordsLeadHome(normalize, hasStore, cs, i, word, j);
    }
    if word in byName {
      SubWordsLeadHome(normalize, hasStore, cs, i, word, byName[word]);
      NamesAreCalls(normalize, subs[byName[word]], word);
    }
  }

  // ─── Typed messages ─────────────────────────────────────────────────────

  /** The message's text, or its caption while captions count. */
  predicate IsTyped(content: Content, captions: bool, text: string, caption: bool) {
    if caption then captions && (content == Image(Some(text)) || content == Video(Some(text))) else content == Text(text)
  }

  function TriggerOf(p: Parsed, caption: bool): Trigger { if caption then Caption(p.prefix, p.name) else Spoken(p.prefix, p.name) }

  /** The first argument, if typed outside quotes, calls none of the subcommands. */
  ghost predicate NoSubCalled(normalize: string -> string, c: Command, args: Args) {
    SplitFirst(args).None? || CallsNone(normalize, c.subcommands, normalize(SplitFirst(args).value.0))
  }

  /** Found: what `t` names, with its own reading of the text left to it. */
  ghost predicate Runs(r: Router, normalize: string -> string, cs: seq<Command>, found: Option<Found>, t: Target, trigger: Trigger, raw: string)
    requires Valid(r) && t.command < |cs| && (t.sub.Some? ==> t.sub.value < |cs[t.command].subcommands|)
  {
    var c := cs[t.command];
    var runs := if t.sub.Some? then c.subcommands[t.sub.value] else c;
    var name := if t.sub.Some? then Some(normalize(runs.name)) else None;
    && found == Some(Known(Invocation(normalize(c.name), trigger, ReadAs(runs.flags, runs.passUnknown, raw), name)))
    && Dispatch(r, found.value.invocation) == Ok(t)
  }

  lemma NamesKept(normalize: string -> string, cs: seq<Command>, i: nat)
    requires i < |cs|
    ensures var info := RouterOf(normalize, cs).infos[i];
            && info.name == normalize(cs[i].name) && info.flags == cs[i].flags && info.passUnknown == cs[i].passUnknown
            && |info.subcommands| == |cs[i].subcommands|
  {
    InfoAt(normalize, cs, i);
  }

  lemma SubNamesKept(normalize: string -> string, cs: seq<Command>, i: nat, j: nat)
    requires i < |cs| && j < |cs[i].subcommands|
    ensures var info, sub := RouterOf(normalize, cs).infos[i], cs[i].subcommands[j];
            && j < |info.subcommands|
            && var kept := info.subcommands[j];
               kept.name == normalize(sub.name) && kept.flags == sub.flags && kept.passUnknown == sub.passUnknown
  {
    InfoAt(normalize, cs, i);
    SubInfoAt(normalize, cs[i].subcommands, j);
  }

  /** A typed name or alias runs its command on the rest of the text, when the
      first argument calls no subcommand of it. */
  lemma FindsCommand(normalize: string -> string, hasStore: bool, cs: seq<Command>, parse: string -> Option<Parsed>,
                     captions: bool, content: Content, text: string, caption: bool, p: Parsed, i: nat)
    requires Acceptable(normalize, hasStore, cs) && IsTyped(content, captions, text, caption) && parse(text) == Some(p)
    requires i < |cs| && Calls(normalize, cs[i], p.name) && NoSubCalled(normalize, cs[i], p.args)
    ensures var r := RouterOf(normalize, cs);
            && Valid(r)
            && Runs(r, normalize, cs, Find(r, normalize, parse, captions, content), Target(i, None), TriggerOf(p, caption), p.args.raw)
  {
    var r := RouterOf(normalize, cs);
    BuiltIsNamed(normalize, hasStore, cs);
    WordLeads(normalize, hasStore, cs, p.name);
    if SplitFirst(p.args).Some? {
      SubWordLeads(normalize, hasStore, cs, i, normalize(SplitFirst(p.args).value.0));
    }
    assert SubFor(r, normalize, i, p.args).None?;
    NamesKept(normalize, cs, i);
  }

  /** When it does, that subcommand runs, on what is left after the argument. */
  lemma FindsSubcommand(normalize: string -> string, hasStore: bool, cs: seq<Command>, parse: string -> Option<Parsed>,
                        captions: bool, content: Content, text: string, caption: bool, p: Parsed, i: nat, j: nat)
    requires Acceptable(normalize, hasStore, cs) && IsTyped(content, captions, text, caption) && parse(text) == Some(p)
    requires i < |cs| && Calls(normalize, cs[i], p.name) && SplitFirst(p.args).Some?
    requires j < |cs[i].subcommands| && Calls(normalize, cs[i].subcommands[j], normalize(SplitFirst(p.args).value.0))
    ensures var r := RouterOf(normalize, cs);
            && Valid(r)
            && Runs(r, normalize, cs, Find(r, normalize, parse, captions, content), Target(i, Some(j)), TriggerOf(p, caption),
                    SplitFirst(p.args).value.1)
  {
    var r := RouterOf(normalize, cs);
    BuiltIsNamed(normalize, hasStore, cs);
    WordLeads(normalize, hasStore, cs, p.name);
    SubWordLeads(normalize, hasStore, cs, i, normalize(SplitFirst(p.args).value.0));
    assert SubFor(r, normalize, i, p.args) == Some((j, SplitFirst(p.args).value.1));
    NamesKept(normalize, cs, i);
    SubNamesKept(normalize, cs, i, j);
  }

  /** A typed name that calls no command is an unknown one; a text the parser
      does not take is none at all. */
  lemma FindsUnknown(normalize: string -> string, hasStore: bool, cs: seq<Command>, parse: string -> Option<Parsed>,
                     captions: bool, content: Content, text: string, caption: bool)
    requires Acceptable(normalize, hasStore, cs) && IsTyped(content, captions, text, caption)
    requires parse(text).Some? ==> CallsNone(normalize, cs, parse(text).value.name)
    ensures var r := RouterOf(normalize, cs);
            && Valid(r)
            && Find(r, normalize, parse, captions, content) == if parse(text).Some? then Some(Unknown(parse(text).value)) else None
  {
    BuiltIsNamed(normalize, hasStore, cs);
    if parse(text).Some? {
      WordLeads(normalize, hasStore, cs, parse(text).value.name);
    }
  }

  // ─── Tapped buttons ─────────────────────────────────────────────────────

  /** The id of a tapped button or list row. */
  predicate IsTapped(content: Content, id: string) {
    content == ButtonReply(id) || content == ListReply(id) || content == Button(Some(id))
  }

  /** A tapped payload runs what declared it, without arguments. */
  lemma FindsPayload(normalize: string -> string, hasStore: bool, cs: seq<Command>, parse: string -> Option<Parsed>,
                     captions: bool, content: Content, id: string, t: Target)
    requires Acceptable(normalize, hasStore, cs) && IsTapped(content, id) && Declares(cs, t, id)
    ensures var r := RouterOf(normalize, cs);
            var name := if t.sub.Some? then Some(normalize(cs[t.command].subcommands[t.sub.value].name)) else None;
            && Valid(r)
            && var found := Find(r, normalize, parse, captions, content);
               && found == Some(Known(Invocation(normalize(cs[t.command].name), Payload(id), Args("", [], []), name)))
               && Dispatch(r, found.value.invocation) == Ok(t)
  {
    BuiltIsNamed(normalize, hasStore, cs);
    PayloadsLeadHome(normalize, hasStore, cs, id, t);
    NamesKept(normalize, cs, t.command);
    if t.sub.Some? {
      SubNamesKept(normalize, cs, t.command, t.sub.value);
    }
  }

  /** Any other message invokes nothing: a payload that nobody declared, a caption
      while they do not count, or one without text or id. */
  lemma FindsNothing(normalize: string -> string, hasStore: bool, cs: seq<Command>, parse: string -> Option<Parsed>,
                     captions: bool, content: Content)
    requires Acceptable(normalize, hasStore, cs)
    requires forall text, caption :: !IsTyped(content, captions, text, caption)
    requires forall id, t :: IsTapped(content, id) ==> !Declares(cs, t, id)
    ensures Valid(RouterOf(normalize, cs)) && Find(RouterOf(normalize, cs), normalize, parse, captions, content).None?
  {
    var r, typed, id := RouterOf(normalize, cs), TypedIn(content, captions), PayloadIn(content);
    BuiltIsNamed(normalize, hasStore, cs);
    if typed.Some? {
      assert IsTyped(content, captions, typed.value.0, typed.value.1);
    } else if id.Some? && id.value in r.byPayload {
      PayloadsLeadHome(normalize, hasStore, cs, id.value, r.byPayload[id.value]);
      assert IsTapped(content, id.value);
    }
  }
}
