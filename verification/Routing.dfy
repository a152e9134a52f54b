/**
 What a built router does with a message: find the command it invokes, then
 dispatch to it.
 */
module Routing {
  import opened Wrappers
  import opened Texts
  import opened Lexer
  import opened LexerResults
  import opened Routers

  datatype Trigger = Spoken(prefix: string, name: string) | Caption(prefix: string, name: string) | Payload(id: string)

  datatype Invocation = Invocation(command: string, trigger: Trigger, args: Args, subcommand: Option<string>)

  /** What the parser reads of a text. */
  datatype Parsed = Parsed(prefix: string, name: string, args: Args)

  datatype Content =
    | Text(body: string) | Image(caption: Option<string>) | Video(caption: Option<string>)
    | ButtonReply(id: string) | ListReply(id: string) | Button(payload: Option<string>) | Other

  datatype Found = Known(invocation: Invocation) | Unknown(parsed: Parsed)

  datatype DispatchError = NoSuchCommand | NoSuchSubcommand

  /** The router's maps point at what it has. */
  ghost predicate Valid(r: Router) {
    && |r.infos| == |r.subByName|
    && (forall w :: w in r.byName ==> r.byName[w] < |r.infos|)
    && (forall i, w :: 0 <= i < |r.infos| && w in r.subByName[i] ==> r.subByName[i][w] < |r.infos[i].subcommands|)
    && (forall p :: p in r.byPayload ==>
          var t := r.byPayload[p];
          t.command < |r.infos| && (t.sub.Some? ==> t.sub.value < |r.infos[t.command].subcommands|))
  }

  /** And the name each keeps is one of the words that lead to it. */
  ghost predicate Named(r: Router)
    requires Valid(r)
  {
    && (forall i :: 0 <= i < |r.infos| ==> r.infos[i].name in r.byName && r.byName[r.infos[i].name] == i)
    && (forall i, j :: 0 <= i < |r.infos| && 0 <= j < |r.infos[i].subcommands| ==>
          var name := r.infos[i].subcommands[j].name;
          name in r.subByName[i] && r.subByName[i][name] == j)
  }

  function ReadBy(info: Info, raw: string): Args { ReadAs(info.flags, info.passUnknown, raw) }

  /** The subcommand looked up by the first argument, with the text left to it. */
  function SubFor(r: Router, normalize: string -> string, index: nat, args: Args): Option<(nat, string)>
    requires Valid(r) && index < |r.infos|
  {
    var first := SplitFirst(args);
    if r.subByName[index] != map[] && first.Some? && normalize(first.value.0) in r.subByName[index] then
      Some((r.subByName[index][normalize(first.value.0)], first.value.1))
    else None
  }

  /** The invocation of a command: of its subcommand if the first argument
      names one, the arguments read as whichever runs reads them. */
  function InvocationOf(r: Router, normalize: string -> string, index: nat, trigger: Trigger, args: Args): Invocation
    requires Valid(r) && index < |r.infos|
  {
    var info, sub := r.infos[index], SubFor(r, normalize, index, args);
    if sub.Some? then
      assert sub.value.0 < |r.infos[index].subcommands|;
      var subInfo := info.subcommands[sub.value.0];
      Invocation(info.name, trigger, ReadBy(subInfo, sub.value.1), Some(subInfo.name))
    else Invocation(info.name, trigger, ReadBy(info, args.raw), None)
  }

  /** The text a message may hold a command in, and whether it is a caption. */
  function TypedIn(content: Content, captions: bool): Option<(string, bool)> {
    match content
    case Text(body) => Some((body, false))
    case Image(caption) => if captions && caption.Some? then Some((caption.value, true)) else None
    case Video(caption) => if captions && caption.Some? then Some((caption.value, true)) else None
    case _ => None
  }

  function PayloadIn(content: Content): Option<string> {
    match content
    case ButtonReply(id) => Some(id)
    case ListReply(id) => Some(id)
    case Button(payload) => payload
    case _ => None
  }

  function FindTyped(r: Router, normalize: string -> string, parsed: Parsed, caption: bool): Found
    requires Valid(r)
  {
    if parsed.name !in r.byName then Unknown(parsed) else
      var trigger := if caption then Caption(parsed.prefix, parsed.name) else Spoken(parsed.prefix, parsed.name);
      Known(InvocationOf(r, normalize, r.byName[parsed.name], trigger, parsed.args))
  }

  function FindPayload(r: Router, id: string): Option<Found>
    requires Valid(r)
  {
    if id !in r.byPayload then None else
      var t := r.byPayload[id];
      var info := r.infos[t.command];
      Some(Known(Invocation(
        info.name, Payload(id), Args("", [], []), if t.sub.Some? then Some(info.subcommands[t.sub.value].name) else None)))
  }

  /** What a message comes to: an invocation, a name no command has, or neither. */
  function Find(r: Router, normalize: string -> string, parse: string -> Option<Parsed>, captions: bool, content: Content): Option<Found>
    requires Valid(r)
  {
    var typed, id := TypedIn(content, captions), PayloadIn(content);
    if typed.Some? then
      var parsed := parse(typed.value.0);
      if parsed.Some? then Some(FindTyped(r, normalize, parsed.value, typed.value.1)) else None
    else if id.Some? then FindPayload(r, id.value)
    else None
  }

  /** The command, and subcommand, an invocation runs. */
  function Dispatch(r: Router, invocation: Invocation): Result<Target, DispatchError>
    requires Valid(r)
  {
    if invocation.command !in r.byName then Err(NoSuchCommand) else
      var index := r.byName[invocation.command];
      match invocation.subcommand
      case None => Ok(Target(index, None))
      case Some(name) => if name in r.subByName[index] then Ok(Target(index, Some(r.subByName[index][name]))) else Err(NoSuchSubcommand)
  }

  // ─── Every router the build accepts ─────────────────────────────────────

  /** A word of the `i`-th command is entered for it, and nothing else is. */
  lemma {:induction false} NameEntered(normalize: string -> string, cs: seq<Command>, word: string, i: nat)
    ensures (word, i) in Names(normalize, cs) <==> i < |cs| && word in NamesOf(normalize, cs[i])
  {
    if cs != [] {
      var n: nat := |cs| - 1;
      NameEntered(normalize, cs[..n], word, i);
      ForHolds<nat>(NamesOf(normalize, cs[n]), n);
      var front, last := Names(normalize, cs[..n]), For<nat>(NamesOf(normalize, cs[n]), n);
      assert Names(normalize, cs) == front + last;
      assert (word, i) in last <==> word in NamesOf(normalize, cs[n]) && i == n;
    }
  }

  lemma {:induction false} SubNameEntered(normalize: string -> string, subs: seq<Command>, word: string, i: nat)
    ensures (word, i) in SubNames(normalize, subs) <==> i < |subs| && word in NamesOf(normalize, subs[i])
  {
    if subs != [] {
      var n: nat := |subs| - 1;
      SubNameEntered(normalize, subs[..n], word, i);
      ForHolds<nat>(NamesOf(normalize, subs[n]), n);
      var front, last := SubNames(normalize, subs[..n]), For<nat>(NamesOf(normalize, subs[n]), n);
      assert SubNames(normalize, subs) == front + last;
      assert (word, i) in last <==> word in NamesOf(normalize, subs[n]) && i == n;
    }
  }

  lemma {:induction false} SubPayloadEntered(subs: seq<Command>, index: nat, p: string, t: Target)
    ensures (p, t) in SubPayloads(subs, index) <==>
            t.command == index && t.sub.Some? && t.sub.value < |subs| && p in subs[t.sub.value].payloads
  {
    if subs != [] {
      var n: nat := |subs| - 1;
      SubPayloadEntered(subs[..n], index, p, t);
      ForHolds(subs[n].payloads, Target(index, Some(n)));
      var front, last := SubPayloads(subs[..n], index), For(subs[n].payloads, Target(index, Some(n)));
      assert SubPayloads(subs, index) == front + last;
      assert (p, t) in last <==> p in subs[n].payloads && t == Target(index, Some(n));
    }
  }

  /** Whether the payload `p` was declared by what `t` names. */
  ghost predicate Declares(cs: seq<Command>, t: Target, p: string) {
    && t.command < |cs|
    && match t.sub
       case None => p in cs[t.command].payloads
       case Some(j) => j < |cs[t.command].subcommands| && p in cs[t.command].subcommands[j].payloads
  }

  lemma {:induction false} PayloadEntered(cs: seq<Command>, p: string, t: Target)
    ensures (p, t) in Payloads(cs) <==> Declares(cs, t, p)
  {
    if cs != [] {
      var n: nat := |cs| - 1;
      PayloadEntered(cs[..n], p, t);
      SubPayloadEntered(cs[n].subcommands, n, p, t);
      ForHolds(cs[n].payloads, Target(n, None));
      var front, subs, own := Payloads(cs[..n]), SubPayloads(cs[n].subcommands, n), For(cs[n].payloads, Target(n, None));
      assert Payloads(cs) == front + subs + own;
      assert (p, t) in own <==> p in cs[n].payloads && t == Target(n, None);
    }
  }

  lemma {:induction false} InfoAt(normalize: string -> string, cs: seq<Command>, i: nat)
    requires i < |cs|
    ensures FullInfos(normalize, cs)[i] == FullInfo(normalize, cs[i])
    ensures SubMaps(normalize, cs)[i] == FromEntries(SubNames(normalize, cs[i].subcommands))
  {
    if i < |cs| - 1 {
      InfoAt(normalize, cs[..|cs| - 1], i);
    }
  }

  lemma {:induction false} SubInfoAt(normalize: string -> string, subs: seq<Command>, i: nat)
    requires i < |subs|
    ensures InfosOf(normalize, subs)[i] == InfoOf(normalize, subs[i])
  {
    if i < |subs| - 1 {
      SubInfoAt(normalize, subs[..|subs| - 1], i);
    }
  }

  /** In every router the build accepts, each word leads to the one command that
      has it as its name or an alias; no other word leads anywhere. */
  lemma WordsLeadHome(normalize: string -> string, hasStore: bool, cs: seq<Command>, word: string, i: nat)
    requires Acceptable(normalize, hasStore, cs)
    ensures var byName := RouterOf(normalize, cs).byName;
            word in byName && byName[word] == i <==> i < |cs| && word in NamesOf(normalize, cs[i])
  {
    NameEntered(normalize, cs, word, i);
    LookupIsEntry<nat>(Names(normalize, cs), word);
  }

  lemma {:induction false} EachSubsOk(normalize: string -> string, hasStore: bool, cs: seq<Command>, i: nat)
    requires EachOk(normalize, hasStore, cs) && i < |cs|
    ensures SubsOk(normalize, hasStore, cs[i].subcommands)
  {
    if i < |cs| - 1 {
      EachSubsOk(normalize, hasStore, cs[..|cs| - 1], i);
    }
  }

  lemma SubWordsLeadHome(normalize: string -> string, hasStore: bool, cs: seq<Command>, i: nat, word: string, j: nat)
    requires Acceptable(normalize, hasStore, cs) && i < |cs|
    ensures var byName := RouterOf(normalize, cs).subByName[i];
            var subs := cs[i].subcommands;
            word in byName && byName[word] == j <==> j < |subs| && word in NamesOf(normalize, subs[j])
  {
    EachSubsOk(normalize, hasStore, cs, i);
    InfoAt(normalize, cs, i);
    SubNameEntered(normalize, cs[i].subcommands, word, j);
    LookupIsEntry<nat>(SubNames(normalize, cs[i].subcommands), word);
  }

  /** Each payload runs the one command or subcommand that declared it. */
  lemma PayloadsLeadHome(normalize: string -> string, hasStore: bool, cs: seq<Command>, p: string, t: Target)
    requires Acceptable(normalize, hasStore, cs)
    ensures var byPayload := RouterOf(normalize, cs).byPayload;
            p in byPayload && byPayload[p] == t <==> Declares(cs, t, p)
  {
    PayloadEntered(cs, p, t);
    LookupIsEntry(Payloads(cs), p);
  }

  lemma BuiltIsValid(normalize: string -> string, hasStore: bool, cs: seq<Command>)
    requires Acceptable(normalize, hasStore, cs)
    ensures Valid(RouterOf(normalize, cs))
  {
    var r := RouterOf(normalize, cs);
    forall w | w in r.byName
      ensures r.byName[w] < |r.infos|
    {
      WordsLeadHome(normalize, hasStore, cs, w, r.byName[w]);
    }
    forall i, w | 0 <= i < |r.infos| && w in r.subByName[i]
      ensures r.subByName[i][w] < |r.infos[i].subcommands|
    {
      SubWordsLeadHome(normalize, hasStore, cs, i, w, r.subByName[i][w]);
      InfoAt(normalize, cs, i);
    }
    forall p | p in r.byPayload
      ensures var t := r.byPayload[p];
              t.command < |r.infos| && (t.sub.Some? ==> t.sub.value < |r.infos[t.command].subcommands|)
    {
      PayloadsLeadHome(normalize, hasStore, cs, p, r.byPayload[p]);
      InfoAt(normalize, cs, r.byPayload[p].command);
    }
  }

  lemma BuiltIsNamed(normalize: string -> string, hasStore: bool, cs: seq<Command>)
    requires Acceptable(normalize, hasStore, cs)
    ensures Valid(RouterOf(normalize, cs)) && Named(RouterOf(normalize, cs))
  {
    BuiltIsValid(normalize, hasStore, cs);
    var r := RouterOf(normalize, cs);
    forall i | 0 <= i < |r.infos|
      ensures r.infos[i].name in r.byName && r.byName[r.infos[i].name] == i
    {
      InfoAt(normalize, cs, i);
      WordsLeadHome(normalize, hasStore, cs, r.infos[i].name, i);
    }
    forall i, j | 0 <= i < |r.infos| && 0 <= j < |r.infos[i].subcommands|
      ensures var name := r.infos[i].subcommands[j].name;
              name in r.subByName[i] && r.subByName[i][name] == j
    {
      InfoAt(normalize, cs, i);
      SubInfoAt(normalize, cs[i].subcommands, j);
      SubWordsLeadHome(normalize, hasStore, cs, i, r.infos[i].subcommands[j].name, j);
    }
  }

  // ─── Find and dispatch agree ────────────────────────────────────────────

  /** What a message's text or payload leads to, by the maps alone. */
  function Matched(r: Router, normalize: string -> string, parse: string -> Option<Parsed>, captions: bool, content: Content): Option<Target>
    requires Valid(r)
  {
    var typed, id := TypedIn(content, captions), PayloadIn(content);
    if typed.Some? then
      var parsed := parse(typed.value.0);
      if parsed.Some? && parsed.value.name in r.byName then
        var index := r.byName[parsed.value.name];
        var sub := SubFor(r, normalize, index, parsed.value.args);
        Some(Target(index, if sub.Some? then Some(sub.value.0) else None))
      else None
    else if id.Some? && id.value in r.byPayload then Some(r.byPayload[id.value])
    else None
  }

  ghost predicate Agrees(r: Router, normalize: string -> string, parse: string -> Option<Parsed>, captions: bool, content: Content)
    requires Valid(r)
  {
    var found := Find(r, normalize, parse, captions, content);
    && (found.Some? && found.value.Known? <==> Matched(r, normalize, parse, captions, content).Some?)
    && (found.Some? && found.value.Known? ==>
          Dispatch(r, found.value.invocation) == Ok(Matched(r, normalize, parse, captions, content).value))
  }

  lemma NamedAgrees(r: Router, normalize: string -> string, parse: string -> Option<Parsed>, captions: bool, content: Content)
    requires Valid(r) && Named(r)
    ensures Agrees(r, normalize, parse, captions, content)
  {
  }

  /** Whatever a message invokes, in every router the build accepts, is
      dispatched to the very command and subcommand that matched: neither
      error of dispatch is reached. */
  lemma DispatchAgrees(normalize: string -> string, hasStore: bool, cs: seq<Command>,
                       parse: string -> Option<Parsed>, captions: bool, content: Content)
    requires Acceptable(normalize, hasStore, cs)
    ensures Valid(RouterOf(normalize, cs)) && Named(RouterOf(normalize, cs))
    ensures Agrees(RouterOf(normalize, cs), normalize, parse, captions, content)
  {
    BuiltIsNamed(normalize, hasStore, cs);
    NamedAgrees(RouterOf(normalize, cs), normalize, parse, captions, content);
  }

  /** An invocation's arguments are as its own command reads them: reading them
      again when it runs changes nothing. */
  lemma ReadAgainUnchanged(r: Router, normalize: string -> string, parse: string -> Option<Parsed>, captions: bool, content: Content)
    requires Valid(r) && Named(r)
    ensures var found := Find(r, normalize, parse, captions, content);
            found.Some? && found.value.Known? ==>
              var t := Dispatch(r, found.value.invocation);
              && t.Ok?
              && var info := r.infos[t.value.command];
                 var runs := if t.value.sub.Some? then info.subcommands[t.value.sub.value] else info;
                 ReadBy(runs, found.value.invocation.args.raw) == found.value.invocation.args
  {
    var found := Find(r, normalize, parse, captions, content);
    if found.Some? && found.value.Known? {
      var typed := TypedIn(content, captions);
      if typed.Some? {
        var parsed := parse(typed.value.0).value;
        var index := r.byName[parsed.name];
        var info, sub := r.infos[index], SubFor(r, normalize, index, parsed.args);
        if sub.Some? {
          ReadTwice(info.subcommands[sub.value.0], sub.value.1);
        } else {
          ReadTwice(info, parsed.args.raw);
        }
      }
    }
  }

  lemma ReadTwice(info: Info, raw: string)
    ensures ReadBy(info, ReadBy(info, raw).raw) == ReadBy(info, raw)
  {
    TrimTrims(raw);
    TrimKeeps(Trim(raw));
  }
}
