/**
 Who is the same person, told by the recipients' own fields, and which earlier
 listing a repeated one stands under.
 */
module DedupeResults {
  import opened Wrappers
  import opened Dedupe

  function PhoneOf(r: Recipient): Option<string> {
    match r
    case Phone(number) => Some(number)
    case PhoneAndUser(phone, _) => Some(phone)
    case _ => None
  }

  function UserOf(r: Recipient): Option<string> {
    match r
    case User(id) => Some(id)
    case PhoneAndUser(_, user) => Some(user)
    case _ => None
  }

  function GroupOf(r: Recipient): Option<string> { if r.Group? then Some(r.group) else None }

  predicate IsDigit(c: char) { '0' <= c <= '9' }

  /** The digits of a number are its characters that are digits, in order. */
  lemma {:induction false} DigitsExactly(s: string, c: char)
    ensures Digits("") == "" && Digits(s + [c]) == Digits(s) + (if IsDigit(c) then [c] else [])
    ensures forall d :: d in Digits(s) <==> IsDigit(d) && d in s
  {
    if s == "" {
      assert s + [c] == [c];
    } else {
      DigitsExactly(s[1..], c);
      assert (s + [c])[1..] == s[1..] + [c] && s == [s[0]] + s[1..];
    }
  }

  /** Two numbers are of one phone if their digits are the same; numbers without
      any, if they are the same text. */
  predicate SameNumber(a: string, b: string) {
    if Digits(a) == "" && Digits(b) == "" then a == b else Digits(a) == Digits(b)
  }

  predicate SamePhone(a: Recipient, b: Recipient) {
    PhoneOf(a).Some? && PhoneOf(b).Some? && SameNumber(PhoneOf(a).value, PhoneOf(b).value)
  }

  predicate SameUser(a: Recipient, b: Recipient) { UserOf(a).Some? && UserOf(a) == UserOf(b) }

  predicate SameGroup(a: Recipient, b: Recipient) { GroupOf(a).Some? && GroupOf(a) == GroupOf(b) }

  /** A text without digits is not what is left of another's. */
  lemma NotDigitsOf(a: string, b: string)
    requires a != "" && Digits(a) == ""
    ensures Digits(b) != a
  {
    DigitsExactly(a, ' ');
    DigitsExactly(b, ' ');
    assert a[0] in a && a[0] !in Digits(b);
  }

  lemma NumbersIdentify(a: string, b: string)
    ensures PhoneIdentity(a) == PhoneIdentity(b) <==> SameNumber(a, b)
  {
    if Digits(a) == "" && a != "" {
      NotDigitsOf(a, b);
    }
    if Digits(b) == "" && b != "" {
      NotDigitsOf(b, a);
    }
  }

  lemma HasNumber(a: Recipient, number: string)
    ensures PhoneIdentity(number) in Identities(a) <==> PhoneOf(a).Some? && SameNumber(PhoneOf(a).value, number)
  {
    if PhoneOf(a).Some? {
      NumbersIdentify(PhoneOf(a).value, number);
    }
  }

  lemma HasUser(a: Recipient, user: string)
    ensures UserId(user) in Identities(a) <==> UserOf(a) == Some(user)
    ensures GroupId(user) in Identities(a) <==> GroupOf(a) == Some(user)
  {
  }

  /** Listings share an identity exactly if they are of one phone, one user or one
      group; one of another kind shares none. */
  lemma SharesExactly(a: Recipient, b: Recipient)
    ensures Shares(a, b) <==> SamePhone(a, b) || SameUser(a, b) || SameGroup(a, b)
  {
    if PhoneOf(a).Some? {
      HasNumber(b, PhoneOf(a).value);
      assert PhoneIdentity(PhoneOf(a).value) in Identities(a);
    }
    if UserOf(a).Some? {
      HasUser(b, UserOf(a).value);
      assert UserId(UserOf(a).value) in Identities(a);
    }
    if GroupOf(a).Some? {
      HasUser(b, GroupOf(a).value);
      assert GroupId(GroupOf(a).value) in Identities(a);
    }
  }

  /** An identity is kept under the first listing that has it. */
  lemma {:induction false} KnownByFirst(rs: seq<Recipient>, n: nat, j: nat, k: Identity)
    requires j < n <= |rs| && k in Identities(rs[j]) && forall h :: 0 <= h < j ==> k !in Identities(rs[h])
    ensures k in Known(rs, n) && Known(rs, n)[k] == Owner(rs, j)
  {
    LearnKnows(Known(rs, n - 1), Identities(rs[n - 1]), Owner(rs, n - 1));
    if j < n - 1 {
      KnownByFirst(rs, n - 1, j, k);
    } else if k in Known(rs, j) {
      KnownIs(rs, j, k);
    }
  }

  /** The first listing of the same phone, whatever its other fields, */
  ghost predicate FirstOfPhone(rs: seq<Recipient>, i: nat, j: nat)
    requires i < |rs|
  {
    j < i && SamePhone(rs[j], rs[i]) && forall h :: 0 <= h < j ==> !SamePhone(rs[h], rs[i])
  }

  /** or, where no listing before is of that phone, of the same user or group. */
  ghost predicate FirstOfOther(rs: seq<Recipient>, i: nat, j: nat)
    requires i < |rs|
  {
    && (forall h :: 0 <= h < i ==> !SamePhone(rs[h], rs[i]))
    && j < i && (SameUser(rs[j], rs[i]) || SameGroup(rs[j], rs[i]))
    && forall h :: 0 <= h < j ==> !SameUser(rs[h], rs[i]) && !SameGroup(rs[h], rs[i])
  }

  lemma OwnerByPhone(rs: seq<Recipient>, i: nat, j: nat)
    requires i < |rs| && FirstOfPhone(rs, i, j)
    ensures Owner(rs, i) == Owner(rs, j)
  {
    var number := PhoneOf(rs[i]).value;
    forall h | 0 <= h <= j
      ensures PhoneIdentity(number) in Identities(rs[h]) <==> h == j
    {
      HasNumber(rs[h], number);
    }
    KnownByFirst(rs, i, j, PhoneIdentity(number));
  }

  /** A number nobody before has is not known. */
  lemma NumberUnknown(rs: seq<Recipient>, i: nat)
    requires i < |rs| && PhoneOf(rs[i]).Some? && forall h :: 0 <= h < i ==> !SamePhone(rs[h], rs[i])
    ensures PhoneIdentity(PhoneOf(rs[i]).value) !in Known(rs, i)
  {
    var phone := PhoneIdentity(PhoneOf(rs[i]).value);
    if phone in Known(rs, i) {
      KnownIs(rs, i, phone);
      var h :| 0 <= h < i && phone in Identities(rs[h]);
      HasNumber(rs[h], PhoneOf(rs[i]).value);
    }
  }

  lemma FindsSecond(first: map<Identity, nat>, a: Identity, b: Identity)
    requires b in first
    ensures Find(first, [b]) == Some(first[b]) && (a !in first ==> Find(first, [a, b]) == Some(first[b]))
  {
    assert [a, b][1..] == [b];
  }

  lemma OwnerByOther(rs: seq<Recipient>, i: nat, j: nat)
    requires i < |rs| && FirstOfOther(rs, i, j)
    ensures Owner(rs, i) == Owner(rs, j)
  {
    var name := if UserOf(rs[i]).Some? then UserOf(rs[i]).value else GroupOf(rs[i]).value;
    var k := if UserOf(rs[i]).Some? then UserId(name) else GroupId(name);
    forall h | 0 <= h <= j
      ensures k in Identities(rs[h]) <==> h == j
    {
      HasUser(rs[h], name);
    }
    KnownByFirst(rs, i, j, k);
    if PhoneOf(rs[i]).Some? {
      NumberUnknown(rs, i);
      FindsSecond(Known(rs, i), PhoneIdentity(PhoneOf(rs[i]).value), k);
    } else {
      FindsSecond(Known(rs, i), k, k);
    }
  }

  /** A repeated listing stands where the first one of its phone does or, if there
      is none, the first of its user or group; any other stands for itself. */
  lemma StandsUnder(rs: seq<Recipient>, i: nat)
    requires i < |rs|
    ensures forall j :: FirstOfPhone(rs, i, j) || FirstOfOther(rs, i, j) ==> Owner(rs, i) == Owner(rs, j)
    ensures (forall h :: 0 <= h < i ==> !SamePhone(rs[h], rs[i]) && !SameUser(rs[h], rs[i]) && !SameGroup(rs[h], rs[i])) ==> Owner(rs, i) == i
  {
    forall j | FirstOfPhone(rs, i, j) || FirstOfOther(rs, i, j)
      ensures Owner(rs, i) == Owner(rs, j)
    {
      if FirstOfPhone(rs, i, j) {
        OwnerByPhone(rs, i, j);
      } else {
        OwnerByOther(rs, i, j);
      }
    }
    RepeatedExactly(rs, i);
    if j :| 0 <= j < i && Shares(rs[j], rs[i]) {
      SharesExactly(rs[j], rs[i]);
    }
  }
}
