/**
 Each person once: which listings of a broadcast are sent to, and which are
 duplicates of an earlier one.
 */
module Dedupe {
  import opened Wrappers

  datatype Recipient =
    | Phone(number: string)
    | User(id: string)
    | PhoneAndUser(phone: string, user: string)
    | Group(group: string)
    | AnotherKind

  datatype Identity = PhoneId(digits: string) | UserId(user: string) | GroupId(group: string)

  function Digits(s: string): string {
    if s == "" then "" else (if '0' <= s[0] <= '9' then [s[0]] else []) + Digits(s[1..])
  }

  function PhoneIdentity(number: string): Identity {
    PhoneId(if Digits(number) == "" then number else Digits(number))
  }

  /** All that can show two listings to be of one person. */
  function Identities(r: Recipient): seq<Identity> {
    match r
    case Phone(number) => [PhoneIdentity(number)]
    case User(id) => [UserId(id)]
    case PhoneAndUser(phone, user) => [PhoneIdentity(phone), UserId(user)]
    case Group(group) => [GroupId(group)]
    case AnotherKind => []
  }

  predicate Shares(a: Recipient, b: Recipient) {
    exists k :: k in Identities(a) && k in Identities(b)
  }

  /** The first of `keys` known in `first`, as the listing that owns it. */
  function Find(first: map<Identity, nat>, keys: seq<Identity>): Option<nat> {
    if keys == [] then None else if keys[0] in first then Some(first[keys[0]]) else Find(first, keys[1..])
  }

  /** `keys` owned by `owner`, but for those owned already. */
  function Learn(first: map<Identity, nat>, keys: seq<Identity>, owner: nat): map<Identity, nat>
    decreases keys
  {
    if keys == [] then first else
      Learn(if keys[0] in first then first else first[keys[0] := owner], keys[1..], owner)
  }

  /** What is known after the first `n` listings. */
  function Known(rs: seq<Recipient>, n: nat): map<Identity, nat>
    requires n <= |rs|
    decreases n, 0
  {
    if n == 0 then map[] else Learn(Known(rs, n - 1), Identities(rs[n - 1]), Owner(rs, n - 1))
  }

  /** The listing that stands for listing `i`: itself, or the first of its person. */
  function Owner(rs: seq<Recipient>, i: nat): nat
    requires i < |rs|
    decreases i, 1
  {
    var seen := Find(Known(rs, i), Identities(rs[i]));
    if seen.Some? then seen.value else i
  }

  /** Every duplicate among the first `n` listings, with the listing it repeats. */
  function Repeats(rs: seq<Recipient>, n: nat): seq<(nat, nat)>
    requires n <= |rs|
  {
    if n == 0 then [] else
      Repeats(rs, n - 1) + if Find(Known(rs, n - 1), Identities(rs[n - 1])).Some? then [(n - 1, Owner(rs, n - 1))] else []
  }

  /** Every repeated listing, paired with the one that is sent to instead. */
  method Duplicates(rs: seq<Recipient>) returns (out: seq<(nat, nat)>)
    ensures out == Repeats(rs, |rs|)
  {
    var first: map<Identity, nat> := map[];
    out := [];
    for index := 0 to |rs|
      invariant first == Known(rs, index) && out == Repeats(rs, index)
    {
      var keys := Identities(rs[index]);
      var seen := FindOwner(first, keys);
      var owner := if seen.Some? then seen.value else index;
      for k := 0 to |keys|
        invariant Learn(first, keys[k..], owner) == Known(rs, index + 1)
      {
        assert keys[k..][1..] == keys[k + 1..];
        if keys[k] !in first {
          first := first[keys[k] := owner];
        }
      }
      if seen.Some? {
        out := out + [(index, seen.value)];
      }
    }
  }

  method FindOwner(first: map<Identity, nat>, keys: seq<Identity>) returns (seen: Option<nat>)
    ensures seen == Find(first, keys)
  {
    for k := 0 to |keys|
      invariant Find(first, keys) == Find(first, keys[k..])
    {
      assert keys[k..][1..] == keys[k + 1..];
      if keys[k] in first {
        return Some(first[keys[k]]);
      }
    }
    seen := None;
  }

  lemma {:induction false} LearnKnows(first: map<Identity, nat>, keys: seq<Identity>, owner: nat)
    ensures forall k :: k in Learn(first, keys, owner) <==> k in first || k in keys
    ensures forall k :: k in first ==> Learn(first, keys, owner)[k] == first[k]
    ensures forall k :: k in keys && k !in first ==> Learn(first, keys, owner)[k] == owner
    decreases keys
  {
    if keys != [] {
      LearnKnows(if keys[0] in first then first else first[keys[0] := owner], keys[1..], owner);
    }
  }

  lemma {:induction false} FindFinds(first: map<Identity, nat>, keys: seq<Identity>)
    ensures Find(first, keys).Some? <==> exists k :: k in keys && k in first
    ensures Find(first, keys).Some? ==> exists k :: k in keys && k in first && first[k] == Find(first, keys).value
  {
    if keys != [] {
      FindFinds(first, keys[1..]);
    }
  }

  /** Some listing among the first `n` is known by `k` and stands under `owner`. */
  ghost predicate Listed(rs: seq<Recipient>, n: nat, k: Identity, owner: nat)
    requires n <= |rs|
  {
    exists j :: 0 <= j < n && k in Identities(rs[j]) && owner == Owner(rs, j)
  }

  lemma ListedBefore(rs: seq<Recipient>, n: nat, k: Identity, owner: nat)
    requires 0 < n <= |rs|
    requires Listed(rs, n - 1, k, owner) || (k in Identities(rs[n - 1]) && owner == Owner(rs, n - 1))
    ensures Listed(rs, n, k, owner)
  {
    if Listed(rs, n - 1, k, owner) {
      var j :| 0 <= j < n - 1 && k in Identities(rs[j]) && owner == Owner(rs, j);
      assert 0 <= j < n;
    }
  }

  /** Every identity of an earlier listing is known. */
  lemma {:induction false} Knows(rs: seq<Recipient>, n: nat, j: nat, k: Identity)
    requires j < n <= |rs| && k in Identities(rs[j])
    ensures k in Known(rs, n)
  {
    LearnKnows(Known(rs, n - 1), Identities(rs[n - 1]), Owner(rs, n - 1));
    if j < n - 1 {
      Knows(rs, n - 1, j, k);
    }
  }

  /** Whatever is known, some earlier listing is known by it, and stands under
      the listing it is kept under. */
  lemma {:induction false} KnownIs(rs: seq<Recipient>, n: nat, k: Identity)
    requires n <= |rs| && k in Known(rs, n)
    ensures Listed(rs, n, k, Known(rs, n)[k])
  {
    if n > 0 {
      var before := Known(rs, n - 1);
      LearnKnows(before, Identities(rs[n - 1]), Owner(rs, n - 1));
      if k in before {
        KnownIs(rs, n - 1, k);
      }
      ListedBefore(rs, n, k, Known(rs, n)[k]);
    }
  }

  /** A listing is a duplicate exactly when it shares an identity with an
      earlier one. */
  predicate Repeated(rs: seq<Recipient>, i: nat) requires i < |rs| {
    Find(Known(rs, i), Identities(rs[i])).Some?
  }

  lemma RepeatedExactly(rs: seq<Recipient>, i: nat)
    requires i < |rs|
    ensures Repeated(rs, i) <==> exists j :: 0 <= j < i && Shares(rs[j], rs[i])
  {
    FindFinds(Known(rs, i), Identities(rs[i]));
    if Repeated(rs, i) {
      var k :| k in Identities(rs[i]) && k in Known(rs, i);
      KnownIs(rs, i, k);
    }
    if j :| 0 <= j < i && Shares(rs[j], rs[i]) {
      var k :| k in Identities(rs[j]) && k in Identities(rs[i]);
      Knows(rs, i, j, k);
    }
  }

  /** The list of duplicates holds exactly the repeated listings, in order. */
  lemma {:induction false} RepeatsExactly(rs: seq<Recipient>, n: nat)
    requires n <= |rs|
    ensures forall d: (nat, nat) :: d in Repeats(rs, n) <==> d.0 < n && Repeated(rs, d.0) && d.1 == Owner(rs, d.0)
    ensures forall a, b :: 0 <= a < b < |Repeats(rs, n)| ==> Repeats(rs, n)[a].0 < Repeats(rs, n)[b].0
  {
    if n > 0 {
      RepeatsExactly(rs, n - 1);
      var before, out := Repeats(rs, n - 1), Repeats(rs, n);
      forall d: (nat, nat)
        ensures d in out <==> d.0 < n && Repeated(rs, d.0) && d.1 == Owner(rs, d.0)
      {
        assert d in out <==> d in before || (Repeated(rs, n - 1) && d == (n - 1, Owner(rs, n - 1)));
      }
      assert forall a :: 0 <= a < |before| ==> before[a] in before && out[a] == before[a];
    }
  }

  /** Two listings that are sent to share no identity. */
  lemma KeptAreApart(rs: seq<Recipient>, i: nat, j: nat)
    requires i < j < |rs| && !Repeated(rs, j)
    ensures !Shares(rs[i], rs[j])
  {
    RepeatedExactly(rs, j);
  }

  /** A path of listings, each sharing an identity with the next. */
  ghost predicate Path(rs: seq<Recipient>, path: seq<nat>, from: nat, to: nat) {
    && path != [] && path[0] == from && path[|path| - 1] == to
    && (forall a :: 0 <= a < |path| ==> path[a] <= to && path[a] < |rs|)
    && (forall a, b :: 0 <= a && b == a + 1 < |path| ==> Shares(rs[path[a]], rs[path[b]]))
  }

  lemma PathOnward(rs: seq<Recipient>, path: seq<nat>, from: nat, to: nat, next: nat)
    requires Path(rs, path, from, to) && to < next < |rs| && Shares(rs[to], rs[next])
    ensures Path(rs, path + [next], from, next)
  {
  }

  lemma KnownOwner(rs: seq<Recipient>, i: nat) returns (j: nat)
    requires i < |rs| && Repeated(rs, i)
    ensures j < i && Shares(rs[j], rs[i]) && Owner(rs, j) == Owner(rs, i)
  {
    FindFinds(Known(rs, i), Identities(rs[i]));
    var k :| k in Identities(rs[i]) && k in Known(rs, i) && Known(rs, i)[k] == Owner(rs, i);
    KnownIs(rs, i, k);
    j :| 0 <= j < i && k in Identities(rs[j]) && Owner(rs, i) == Owner(rs, j);
  }

  /** A duplicate names an earlier listing that is sent to, linked to it by
      shared identities. */
  lemma {:induction false} DuplicateOfTheSame(rs: seq<Recipient>, i: nat) returns (path: seq<nat>)
    requires i < |rs|
    ensures Owner(rs, i) <= i && !Repeated(rs, Owner(rs, i))
    ensures Repeated(rs, i) <==> Owner(rs, i) < i
    ensures Path(rs, path, Owner(rs, i), i)
    decreases i
  {
    if Repeated(rs, i) {
      var j := KnownOwner(rs, i);
      var p := DuplicateOfTheSame(rs, j);
      PathOnward(rs, p, Owner(rs, i), j, i);
      path := p + [i];
    } else {
      path := [i];
    }
  }
}
