/**
 The command router: the maps its build fills, and the find and dispatch that
 read them. The parser's two functions, `normalize` and `parse`, are free.
 */
module Routers {
  import opened Wrappers
  import opened Texts
  import opened LexerResults

  // ─── Entries of a map ───────────────────────────────────────────────────

  /** The map a list of entries fills, in order. */
  function FromEntries<V>(es: seq<(string, V)>): map<string, V> {
    if es == [] then map[] else FromEntries(es[..|es| - 1])[es[|es| - 1].0 := es[|es| - 1].1]
  }

  /** No key is taken twice. */
  ghost predicate Distinct<V>(es: seq<(string, V)>) {
    es != [] ==> Distinct(es[..|es| - 1]) && es[|es| - 1].0 !in FromEntries(es[..|es| - 1])
  }

  function For<V>(keys: seq<string>, v: V): seq<(string, V)> {
    if keys == [] then [] else For(keys[..|keys| - 1], v) + [(keys[|keys| - 1], v)]
  }

  lemma {:induction false} DistinctPrefix<V>(a: seq<(string, V)>, b: seq<(string, V)>)
    requires Distinct(a + b)
    ensures Distinct(a)
  {
    if b == [] {
      assert a + b == a;
    } else {
      assert (a + b)[..|a + b| - 1] == a + b[..|b| - 1];
      DistinctPrefix(a, b[..|b| - 1]);
    }
  }

  /** A map filled without repeats gives back each entry, and nothing else. */
  lemma {:induction false} LookupIsEntry<V>(es: seq<(string, V)>, key: string)
    ensures key in FromEntries(es) ==> (key, FromEntries(es)[key]) in es
    ensures Distinct(es) ==> forall v :: (key, v) in es ==> key in FromEntries(es) && FromEntries(es)[key] == v
  {
    if es != [] {
      var front, last := es[..|es| - 1], es[|es| - 1];
      assert es == front + [last];
      LookupIsEntry(front, key);
    }
  }

  lemma {:induction false} ForHolds<V>(keys: seq<string>, v: V)
    ensures forall e :: e in For(keys, v) <==> e.0 in keys && e.1 == v
  {
    if keys != [] {
      var front, last := keys[..|keys| - 1], keys[|keys| - 1];
      assert keys == front + [last];
      ForHolds(front, v);
    }
  }

  lemma ForMore<V>(es: seq<(string, V)>, keys: seq<string>, k: nat, v: V)
    requires k < |keys|
    ensures es + For(keys[..k + 1], v) == es + For(keys[..k], v) + [(keys[k], v)]
    ensures FromEntries(es + For(keys[..k + 1], v)) == FromEntries(es + For(keys[..k], v))[keys[k] := v]
    ensures Distinct(es + For(keys[..k + 1], v)) <==>
            Distinct(es + For(keys[..k], v)) && keys[k] !in FromEntries(es + For(keys[..k], v))
  {
    assert keys[..k + 1][..k] == keys[..k];
    var all := es + For(keys[..k + 1], v);
    assert all == es + For(keys[..k], v) + [(keys[k], v)];
    assert all[..|all| - 1] == es + For(keys[..k], v);
  }

  lemma {:induction false} ForPrefix<V>(es: seq<(string, V)>, keys: seq<string>, k: nat, v: V)
    requires k <= |keys| && Distinct(es + For(keys, v))
    ensures Distinct(es + For(keys[..k], v))
    decreases |keys| - k
  {
    if k < |keys| {
      ForPrefix(es, keys, k + 1, v);
      ForMore(es, keys, k, v);
    } else {
      assert keys[..k] == keys;
    }
  }

  /** Give every key `v`, unless one is taken; `es` is what was entered before. */
  method TakeAll<V>(m: map<string, V>, keys: seq<string>, v: V, ghost es: seq<(string, V)>)
    returns (r: Result<map<string, V>, string>)
    requires m == FromEntries(es) && Distinct(es)
    ensures r.Ok? <==> Distinct(es + For(keys, v))
    ensures r.Ok? ==> r.value == FromEntries(es + For(keys, v))
    ensures r.Err? ==> r.error in keys
  {
    var filled, k := m, 0;
    assert es + For(keys[..0], v) == es;
    while k < |keys|
      invariant 0 <= k <= |keys|
      invariant filled == FromEntries(es + For(keys[..k], v)) && Distinct(es + For(keys[..k], v))
    {
      ForMore(es, keys, k, v);
      if keys[k] in filled {
        if Distinct(es + For(keys, v)) {
          ForPrefix(es, keys, k + 1, v);
        }
        return Err(keys[k]);
      }
      filled := filled[keys[k] := v];
      k := k + 1;
    }
    assert keys[..k] == keys;
    r := Ok(filled);
  }

  /** Where a payload leads, by index: a command, or one of its subcommands. */
  datatype Target = Target(command: nat, sub: Option<nat>)

  type NameEntries = seq<(string, nat)>
  type PayloadMap = map<string, Target>
  type PayloadEntries = seq<(string, Target)>

  // ─── Commands ───────────────────────────────────────────────────────────

  datatype Command = Command(
    name: string, aliases: seq<string>, payloads: seq<string>, flags: seq<string>, passUnknown: bool,
    cooldown: Option<nat>, subcommands: seq<Command>)

  /** What the bot keeps of a command: its words in the parser's form. */
  datatype Info = Info(name: string, aliases: seq<string>, flags: seq<string>, passUnknown: bool, subcommands: seq<Info>)

  datatype Router = Router(
    infos: seq<Info>, subByName: seq<map<string, nat>>, byName: map<string, nat>, byPayload: PayloadMap)

  datatype ConfigError =
    | BadWord(word: string) | WordTaken(word: string) | SubWordTaken(word: string) | Nested(sub: string)
    | Guard(error: GuardError) | EmptyPayload | PayloadTaken(payload: string)

  predicate HasSpace(s: string) { exists c :: c in s && IsWhitespace(c) }

  predicate WordOk(normalize: string -> string, word: string) {
    word != "" && !HasSpace(word) && normalize(word) != "" && !HasSpace(normalize(word))
  }

  predicate WordsOk(normalize: string -> string, c: Command) {
    WordOk(normalize, c.name) && forall a :: a in c.aliases ==> WordOk(normalize, a)
  }

  /** The words that name a command: its name, then its aliases. */
  function NamesOf(normalize: string -> string, c: Command): (r: seq<string>)
    ensures |r| == 1 + |c.aliases|
  {
    [normalize(c.name)] + Mapped(normalize, c.aliases)
  }

  function Mapped(normalize: string -> string, words: seq<string>): (r: seq<string>)
    ensures |r| == |words|
  {
    if words == [] then [] else Mapped(normalize, words[..|words| - 1]) + [normalize(words[|words| - 1])]
  }

  predicate PayloadsOk(payloads: seq<string>) { forall p :: p in payloads ==> !IsBlank(p) }

  ghost predicate OwnOk(normalize: string -> string, hasStore: bool, c: Command) {
    WordsOk(normalize, c) && GuardsOk(c.cooldown, hasStore, c.flags) && PayloadsOk(c.payloads)
  }

  /** The entries a command's subcommands make in its own map of names. */
  function SubNames(normalize: string -> string, subs: seq<Command>): NameEntries {
    if subs == [] then [] else
      var n: nat := |subs| - 1;
      SubNames(normalize, subs[..n]) + For<nat>(NamesOf(normalize, subs[n]), n)
  }

  function SubPayloads(subs: seq<Command>, index: nat): PayloadEntries {
    if subs == [] then [] else
      var n: nat := |subs| - 1;
      SubPayloads(subs[..n], index) + For(subs[n].payloads, Target(index, Some(n)))
  }

  /** Each is good by itself, and has no subcommands of its own. */
  ghost predicate EachSubOk(normalize: string -> string, hasStore: bool, subs: seq<Command>) {
    subs != [] ==>
      var n: nat := |subs| - 1;
      EachSubOk(normalize, hasStore, subs[..n]) && OwnOk(normalize, hasStore, subs[n]) && subs[n].subcommands == []
  }

  ghost predicate SubsOk(normalize: string -> string, hasStore: bool, subs: seq<Command>) {
    EachSubOk(normalize, hasStore, subs) && Distinct(SubNames(normalize, subs))
  }

  function Names(normalize: string -> string, cs: seq<Command>): NameEntries {
    if cs == [] then [] else
      var n: nat := |cs| - 1;
      Names(normalize, cs[..n]) + For<nat>(NamesOf(normalize, cs[n]), n)
  }

  function Payloads(cs: seq<Command>): PayloadEntries {
    if cs == [] then [] else
      var n: nat := |cs| - 1;
      Payloads(cs[..n]) + SubPayloads(cs[n].subcommands, n) + For(cs[n].payloads, Target(n, None))
  }

  /** Each is good by itself, with its subcommands. */
  ghost predicate EachOk(normalize: string -> string, hasStore: bool, cs: seq<Command>) {
    cs != [] ==>
      var n: nat := |cs| - 1;
      EachOk(normalize, hasStore, cs[..n]) && OwnOk(normalize, hasStore, cs[n]) && SubsOk(normalize, hasStore, cs[n].subcommands)
  }

  /** What the build accepts: every word, guard and payload good, no word of a
      command and no payload taken twice, no word twice among one command's
      subcommands, and subcommands one level deep. */
  ghost predicate Acceptable(normalize: string -> string, hasStore: bool, cs: seq<Command>) {
    && EachOk(normalize, hasStore, cs)
    && Distinct(Names(normalize, cs)) && Distinct(Payloads(cs))
  }

  function InfoOf(normalize: string -> string, c: Command): Info {
    var words := NamesOf(normalize, c);
    Info(words[0], words[1..], c.flags, c.passUnknown, [])
  }

  function InfosOf(normalize: string -> string, cs: seq<Command>): (r: seq<Info>)
    ensures |r| == |cs|
  {
    if cs == [] then [] else InfosOf(normalize, cs[..|cs| - 1]) + [InfoOf(normalize, cs[|cs| - 1])]
  }

  function FullInfo(normalize: string -> string, c: Command): Info {
    InfoOf(normalize, c).(subcommands := InfosOf(normalize, c.subcommands))
  }

  function FullInfos(normalize: string -> string, cs: seq<Command>): (r: seq<Info>)
    ensures |r| == |cs|
  {
    if cs == [] then [] else FullInfos(normalize, cs[..|cs| - 1]) + [FullInfo(normalize, cs[|cs| - 1])]
  }

  function SubMaps(normalize: string -> string, cs: seq<Command>): (r: seq<map<string, nat>>)
    ensures |r| == |cs|
  {
    if cs == [] then [] else
      SubMaps(normalize, cs[..|cs| - 1]) + [FromEntries(SubNames(normalize, cs[|cs| - 1].subcommands))]
  }

  /** The router of commands the build accepts. */
  function RouterOf(normalize: string -> string, cs: seq<Command>): Router {
    Router(FullInfos(normalize, cs), SubMaps(normalize, cs), FromEntries(Names(normalize, cs)), FromEntries(Payloads(cs)))
  }

  // ─── Building ───────────────────────────────────────────────────────────

  /** All the words that are to lead to a command, normalised. */
  method CommandWords(normalize: string -> string, c: Command) returns (r: Result<seq<string>, ConfigError>)
    ensures r.Ok? <==> WordsOk(normalize, c)
    ensures r.Ok? ==> r.value == NamesOf(normalize, c)
  {
    if !WordOk(normalize, c.name) {
      return Err(BadWord(c.name));
    }
    var words, k := [normalize(c.name)], 0;
    while k < |c.aliases|
      invariant 0 <= k <= |c.aliases|
      invariant forall j :: 0 <= j < k ==> WordOk(normalize, c.aliases[j])
      invariant words == [normalize(c.name)] + Mapped(normalize, c.aliases[..k])
    {
      if !WordOk(normalize, c.aliases[k]) {
        return Err(BadWord(c.aliases[k]));
      }
      assert c.aliases[..k + 1][..k] == c.aliases[..k];
      words := words + [normalize(c.aliases[k])];
      k := k + 1;
    }
    assert c.aliases[..k] == c.aliases;
    r := Ok(words);
  }

  /** Register the payloads as running `target`; refused when one is blank or taken. */
  method TakePayloads(m: PayloadMap, payloads: seq<string>, target: Target,
                      ghost es: PayloadEntries)
    returns (r: Result<PayloadMap, ConfigError>)
    requires m == FromEntries(es) && Distinct(es)
    ensures r.Ok? <==> PayloadsOk(payloads) && Distinct(es + For(payloads, target))
    ensures r.Ok? ==> r.value == FromEntries(es + For(payloads, target))
  {
    var filled, k := m, 0;
    assert es + For(payloads[..0], target) == es;
    while k < |payloads|
      invariant 0 <= k <= |payloads|
      invariant forall j :: 0 <= j < k ==> !IsBlank(payloads[j])
      invariant filled == FromEntries(es + For(payloads[..k], target)) && Distinct(es + For(payloads[..k], target))
    {
      ForMore(es, payloads, k, target);
      if IsBlank(payloads[k]) {
        return Err(EmptyPayload);
      }
      if payloads[k] in filled {
        if Distinct(es + For(payloads, target)) {
          ForPrefix(es, payloads, k + 1, target);
        }
        return Err(PayloadTaken(payloads[k]));
      }
      filled := filled[payloads[k] := target];
      k := k + 1;
    }
    assert payloads[..k] == payloads;
    r := Ok(filled);
  }

  lemma {:induction false} EachSubPrefix(normalize: string -> string, hasStore: bool, subs: seq<Command>, k: nat)
    requires k <= |subs| && EachSubOk(normalize, hasStore, subs)
    ensures EachSubOk(normalize, hasStore, subs[..k])
    decreases |subs|
  {
    if k < |subs| {
      EachSubPrefix(normalize, hasStore, subs[..|subs| - 1], k);
      assert subs[..|subs| - 1][..k] == subs[..k];
    } else {
      assert subs[..k] == subs;
    }
  }

  lemma {:induction false} EachPrefix(normalize: string -> string, hasStore: bool, cs: seq<Command>, k: nat)
    requires k <= |cs| && EachOk(normalize, hasStore, cs)
    ensures EachOk(normalize, hasStore, cs[..k])
    decreases |cs|
  {
    if k < |cs| {
      EachPrefix(normalize, hasStore, cs[..|cs| - 1], k);
      assert cs[..|cs| - 1][..k] == cs[..k];
    } else {
      assert cs[..k] == cs;
    }
  }

  lemma SubNamesMore(normalize: string -> string, before: seq<Command>, sub: Command)
    ensures SubNames(normalize, before + [sub]) == SubNames(normalize, before) + For<nat>(NamesOf(normalize, sub), |before|)
  {
    assert (before + [sub])[..|before|] == before;
  }

  lemma SubPayloadsMore(before: seq<Command>, sub: Command, index: nat, es: PayloadEntries)
    ensures es + SubPayloads(before + [sub], index) == es + SubPayloads(before, index) + For(sub.payloads, Target(index, Some(|before|)))
  {
    assert (before + [sub])[..|before|] == before;
  }

  lemma InfosMore(normalize: string -> string, before: seq<Command>, sub: Command)
    ensures InfosOf(normalize, before + [sub]) == InfosOf(normalize, before) + [InfoOf(normalize, sub)]
  {
    assert (before + [sub])[..|before|] == before;
  }

  lemma {:induction false} SubNamesPrefix(normalize: string -> string, subs: seq<Command>, k: nat)
    requires k <= |subs| && Distinct(SubNames(normalize, subs))
    ensures Distinct(SubNames(normalize, subs[..k]))
    decreases |subs|
  {
    if k < |subs| {
      var front := subs[..|subs| - 1];
      SubNamesMore(normalize, front, subs[|subs| - 1]);
      assert subs == front + [subs[|subs| - 1]];
      DistinctPrefix(SubNames(normalize, front), For<nat>(NamesOf(normalize, subs[|subs| - 1]), |front|));
      SubNamesPrefix(normalize, front, k);
      assert front[..k] == subs[..k];
    } else {
      assert subs[..k] == subs;
    }
  }

  lemma {:induction false} SubPayloadsPrefix(subs: seq<Command>, index: nat, es: PayloadEntries, k: nat)
    requires k <= |subs| && Distinct(es + SubPayloads(subs, index))
    ensures Distinct(es + SubPayloads(subs[..k], index))
    decreases |subs|
  {
    if k < |subs| {
      var front := subs[..|subs| - 1];
      SubPayloadsMore(front, subs[|subs| - 1], index, es);
      assert subs == front + [subs[|subs| - 1]];
      DistinctPrefix(es + SubPayloads(front, index), For(subs[|subs| - 1].payloads, Target(index, Some(|front|))));
      SubPayloadsPrefix(front, index, es, k);
      assert front[..k] == subs[..k];
    } else {
      assert subs[..k] == subs;
    }
  }

  /** What the subcommands of one command come to. */
  datatype Subs = Subs(byName: map<string, nat>, byPayload: PayloadMap, infos: seq<Info>)

  function SubsFor(normalize: string -> string, subs: seq<Command>, index: nat, es: PayloadEntries): Subs {
    Subs(FromEntries(SubNames(normalize, subs)), FromEntries(es + SubPayloads(subs, index)), InfosOf(normalize, subs))
  }

  /** One subcommand more. */
  method AddSub(normalize: string -> string, hasStore: bool, sub: Command, at: nat, index: nat, s: Subs,
                ghost before: seq<Command>, ghost es: PayloadEntries)
    returns (r: Result<Subs, ConfigError>)
    requires at == |before| && s == SubsFor(normalize, before, index, es)
    requires Distinct(SubNames(normalize, before)) && Distinct(es + SubPayloads(before, index))
    ensures r.Ok? <==>
            && OwnOk(normalize, hasStore, sub) && sub.subcommands == []
            && Distinct(SubNames(normalize, before + [sub])) && Distinct(es + SubPayloads(before + [sub], index))
    ensures r.Ok? ==> r.value == SubsFor(normalize, before + [sub], index, es)
  {
    SubNamesMore(normalize, before, sub);
    SubPayloadsMore(before, sub, index, es);
    InfosMore(normalize, before, sub);
    if sub.subcommands != [] {
      return Err(Nested(sub.name));
    }
    var words :- CommandWords(normalize, sub);
    var named := TakeAll(s.byName, words, at, SubNames(normalize, before));
    if named.Err? {
      return Err(SubWordTaken(named.error));
    }
    var guards := CheckGuards(sub.cooldown, hasStore, sub.flags);
    if guards.Err? {
      return Err(Guard(guards.error));
    }
    var byPayload :- TakePayloads(s.byPayload, sub.payloads, Target(index, Some(at)), es + SubPayloads(before, index));
    r := Ok(Subs(named.value, byPayload, s.infos + [InfoOf(normalize, sub)]));
  }

  /** The subcommands of the command at `index`. */
  method BuildSubs(normalize: string -> string, hasStore: bool, subs: seq<Command>, index: nat, byPayload: PayloadMap,
                   ghost es: PayloadEntries)
    returns (r: Result<Subs, ConfigError>)
    requires byPayload == FromEntries(es) && Distinct(es)
    ensures r.Ok? <==> SubsOk(normalize, hasStore, subs) && Distinct(es + SubPayloads(subs, index))
    ensures r.Ok? ==> r.value == SubsFor(normalize, subs, index, es)
  {
    var s, k := Subs(map[], byPayload, []), 0;
    assert es + SubPayloads([], index) == es;
    while k < |subs|
      invariant 0 <= k <= |subs| && s == SubsFor(normalize, subs[..k], index, es)
      invariant EachSubOk(normalize, hasStore, subs[..k])
      invariant Distinct(SubNames(normalize, subs[..k])) && Distinct(es + SubPayloads(subs[..k], index))
    {
      assert subs[..k + 1] == subs[..k] + [subs[k]];
      assert subs[..k + 1][..k] == subs[..k];
      var more := AddSub(normalize, hasStore, subs[k], k, index, s, subs[..k], es);
      if more.Err? {
        if SubsOk(normalize, hasStore, subs) && Distinct(es + SubPayloads(subs, index)) {
          EachSubPrefix(normalize, hasStore, subs, k + 1);
          SubNamesPrefix(normalize, subs, k + 1);
          SubPayloadsPrefix(subs, index, es, k + 1);
        }
        return Err(more.error);
      }
      s, k := more.value, k + 1;
    }
    assert subs[..k] == subs;
    r := Ok(s);
  }

  lemma NamesMore(normalize: string -> string, before: seq<Command>, c: Command)
    ensures Names(normalize, before + [c]) == Names(normalize, before) + For<nat>(NamesOf(normalize, c), |before|)
  {
    assert (before + [c])[..|before|] == before;
  }

  lemma PayloadsMore(before: seq<Command>, c: Command)
    ensures Payloads(before + [c]) == Payloads(before) + SubPayloads(c.subcommands, |before|) + For(c.payloads, Target(|before|, None))
  {
    assert (before + [c])[..|before|] == before;
  }

  lemma FullInfosMore(normalize: string -> string, before: seq<Command>, c: Command)
    ensures FullInfos(normalize, before + [c]) == FullInfos(normalize, before) + [FullInfo(normalize, c)]
  {
    assert (before + [c])[..|before|] == before;
  }

  lemma SubMapsMore(normalize: string -> string, before: seq<Command>, c: Command)
    ensures SubMaps(normalize, before + [c]) == SubMaps(normalize, before) + [FromEntries(SubNames(normalize, c.subcommands))]
  {
    assert (before + [c])[..|before|] == before;
  }

  lemma {:induction false} NamesPrefix(normalize: string -> string, cs: seq<Command>, k: nat)
    requires k <= |cs| && Distinct(Names(normalize, cs))
    ensures Distinct(Names(normalize, cs[..k]))
    decreases |cs|
  {
    if k < |cs| {
      var front := cs[..|cs| - 1];
      NamesMore(normalize, front, cs[|cs| - 1]);
      assert cs == front + [cs[|cs| - 1]];
      DistinctPrefix(Names(normalize, front), For<nat>(NamesOf(normalize, cs[|cs| - 1]), |front|));
      NamesPrefix(normalize, front, k);
      assert front[..k] == cs[..k];
    } else {
      assert cs[..k] == cs;
    }
  }

  lemma {:induction false} PayloadsPrefix(cs: seq<Command>, k: nat)
    requires k <= |cs| && Distinct(Payloads(cs))
    ensures Distinct(Payloads(cs[..k]))
    decreases |cs|
  {
    if k < |cs| {
      var front, last := cs[..|cs| - 1], cs[|cs| - 1];
      PayloadsMore(front, last);
      assert cs == front + [last];
      DistinctPrefix(Payloads(front) + SubPayloads(last.subcommands, |front|), For(last.payloads, Target(|front|, None)));
      DistinctPrefix(Payloads(front), SubPayloads(last.subcommands, |front|));
      PayloadsPrefix(front, k);
      assert front[..k] == cs[..k];
    } else {
      assert cs[..k] == cs;
    }
  }

  /** One command more. */
  method AddCommand(normalize: string -> string, hasStore: bool, c: Command, at: nat, router: Router, ghost before: seq<Command>)
    returns (r: Result<Router, ConfigError>)
    requires at == |before| && router == RouterOf(normalize, before)
    requires Distinct(Names(normalize, before)) && Distinct(Payloads(before))
    ensures r.Ok? <==>
            && OwnOk(normalize, hasStore, c) && SubsOk(normalize, hasStore, c.subcommands)
            && Distinct(Names(normalize, before + [c])) && Distinct(Payloads(before + [c]))
    ensures r.Ok? ==> r.value == RouterOf(normalize, before + [c])
  {
    NamesMore(normalize, before, c);
    PayloadsMore(before, c);
    FullInfosMore(normalize, before, c);
    SubMapsMore(normalize, before, c);
    var words :- CommandWords(normalize, c);
    var named := TakeAll(router.byName, words, at, Names(normalize, before));
    if named.Err? {
      return Err(WordTaken(named.error));
    }
    var built := BuildSubs(normalize, hasStore, c.subcommands, at, router.byPayload, Payloads(before));
    if Distinct(Payloads(before + [c])) {
      DistinctPrefix(Payloads(before) + SubPayloads(c.subcommands, at), For(c.payloads, Target(at, None)));
    }
    if built.Err? {
      return Err(built.error);
    }
    var subs := built.value;
    var guards := CheckGuards(c.cooldown, hasStore, c.flags);
    if guards.Err? {
      return Err(Guard(guards.error));
    }
    var byPayload :- TakePayloads(subs.byPayload, c.payloads, Target(at, None), Payloads(before) + SubPayloads(c.subcommands, at));
    r := Ok(Router(
      router.infos + [InfoOf(normalize, c).(subcommands := subs.infos)], router.subByName + [subs.byName], named.value, byPayload));
  }

  /** Commands refused at the `k`-th are refused. */
  lemma RefusedAt(normalize: string -> string, hasStore: bool, cs: seq<Command>, k: nat)
    requires k < |cs|
    requires !(&& OwnOk(normalize, hasStore, cs[k]) && SubsOk(normalize, hasStore, cs[k].subcommands)
               && Distinct(Names(normalize, cs[..k + 1])) && Distinct(Payloads(cs[..k + 1])))
    ensures !Acceptable(normalize, hasStore, cs)
  {
    if Acceptable(normalize, hasStore, cs) {
      EachPrefix(normalize, hasStore, cs, k + 1);
      NamesPrefix(normalize, cs, k + 1);
      PayloadsPrefix(cs, k + 1);
    }
  }

  /** The router of `commands`; the build refuses exactly those that are not
      acceptable. */
  method Build(normalize: string -> string, hasStore: bool, commands: seq<Command>) returns (r: Result<Router, ConfigError>)
    ensures r.Ok? <==> Acceptable(normalize, hasStore, commands)
    ensures r.Ok? ==> r.value == RouterOf(normalize, commands)
  {
    var router, k := Router([], [], map[], map[]), 0;
    while k < |commands|
      invariant 0 <= k <= |commands| && router == RouterOf(normalize, commands[..k])
      invariant EachOk(normalize, hasStore, commands[..k])
      invariant Distinct(Names(normalize, commands[..k])) && Distinct(Payloads(commands[..k]))
    {
      assert commands[..k + 1] == commands[..k] + [commands[k]];
      assert commands[..k + 1][..k] == commands[..k];
      var more := AddCommand(normalize, hasStore, commands[k], k, router, commands[..k]);
      if more.Err? {
        RefusedAt(normalize, hasStore, commands, k);
        return Err(more.error);
      }
      router, k := more.value, k + 1;
    }
    assert commands[..k] == commands;
    r := Ok(router);
  }
}
