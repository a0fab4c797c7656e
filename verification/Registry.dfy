/**
 The spoke registry (internal/nodes/nodes.go): a saved list of nodes whose identities,
 names and addresses must stay unambiguous, and the transactions that change it.
 Saving trims every text field.
 */
module Registry {
  import opened Wrappers
  import opened Text

  /** settings stands for every field that takes no part in telling nodes apart. */
  datatype Node = Node(id: string, alias: string, subscriptionAlias: string, sshHost: string, domain: string,
                       wgIP: string, wgPublicKey: string, settings: nat)

  /** net.ParseIP, IP.Equal having been applied: two texts of one address parse to the same value. */
  type ParseIP = string -> Option<nat>

  // ------------------------------------------------------------ names

  function EffectiveAlias(n: Node): string {
    if Trim(n.alias) != "" then Trim(n.alias)
    else if Trim(n.domain) != "" then Trim(n.domain)
    else Trim(n.sshHost)
  }

  function EffectiveSubscriptionAlias(n: Node): string {
    if Trim(n.subscriptionAlias) != "" then Trim(n.subscriptionAlias) else EffectiveAlias(n)
  }

  function AliasKey(n: Node): string {
    Key(EffectiveAlias(n))
  }

  function SubscriptionAliasKey(n: Node): string {
    Key(EffectiveSubscriptionAlias(n))
  }

  /** strings.TrimSuffix(strings.TrimSpace(s), "."). */
  function HostText(s: string): string {
    var t := Trim(s);
    if t != "" && t[|t| - 1] == '.' then t[..|t| - 1] else t
  }

  function Unbracket(s: string): string {
    if s != "" && (s[0] == '[' || s[0] == ']') then Unbracket(s[1..])
    else if s != "" && (s[|s| - 1] == '[' || s[|s| - 1] == ']') then Unbracket(s[..|s| - 1])
    else s
  }

  predicate SameText(a: string, b: string) {
    a != "" && b != "" && Lower(a) == Lower(b)
  }

  predicate SameName(a: string, b: string, parse: ParseIP) {
    var x, y := HostText(a), HostText(b);
    var p, q := parse(Unbracket(x)), parse(Unbracket(y));
    if p.Some? && q.Some? then p == q else SameText(x, y)
  }

  predicate SameDomain(a: string, b: string) {
    SameText(HostText(a), HostText(b))
  }

  // ------------------------------------------------------------ when two nodes are ambiguous

  predicate SameAddress(a: Node, b: Node) {
    (a.wgIP != "" && a.wgIP == b.wgIP) || (a.wgPublicKey != "" && a.wgPublicKey == b.wgPublicKey)
  }

  predicate SamePlace(a: Node, b: Node, parse: ParseIP) {
    || (a.id != "" && Key(a.id) == Key(b.id))
    || SameName(a.sshHost, b.sshHost, parse)
    || SameDomain(a.domain, b.domain)
  }

  predicate SameAlias(a: Node, b: Node) {
    AliasKey(a) != "" && AliasKey(a) == AliasKey(b)
  }

  predicate SameSubscriptionAlias(a: Node, b: Node) {
    SubscriptionAliasKey(a) != "" && SubscriptionAliasKey(a) == SubscriptionAliasKey(b)
  }

  predicate Conflict(a: Node, b: Node, parse: ParseIP) {
    SamePlace(a, b, parse) || SameAlias(a, b) || SameSubscriptionAlias(a, b) || SameAddress(a, b)
  }

  predicate NormalID(id: string) {
    id != "" && Key(id) == id
  }

  ghost predicate Distinct(list: seq<Node>, parse: ParseIP) {
    forall i, j :: 0 <= i < |list| && 0 <= j < |list| && i != j ==> !Conflict(list[i], list[j], parse)
  }

  ghost predicate Identified(list: seq<Node>) {
    forall i :: 0 <= i < |list| ==> NormalID(list[i].id)
  }

  lemma ConflictSymmetric(a: Node, b: Node, parse: ParseIP)
    requires NormalID(a.id) && NormalID(b.id)
    ensures Conflict(a, b, parse) == Conflict(b, a, parse)
  {
    hide Key, HostText, Unbracket, AliasKey, SubscriptionAliasKey;
  }

  // ------------------------------------------------------------ what ambiguous means, field by field

  /** A host or domain name as it is usually spelled: no space around it, no trailing dot, no brackets. */
  predicate Spelled(s: string) {
    && s != "" && !IsSpace(s[0]) && !IsSpace(s[|s| - 1]) && s[|s| - 1] != '.'
    && s[0] !in "[]" && s[|s| - 1] !in "[]"
  }

  /** So is any name without white space and brackets that does not end in a dot. */
  lemma OrdinaryNames(s: string)
    requires s != "" && s[|s| - 1] != '.' && forall i :: 0 <= i < |s| ==> s[i] !in " \t\n\r\U{000B}\U{000C}[]"
    ensures Spelled(s)
  {
    var barred := " \t\n\r\U{000B}\U{000C}[]";
    assert forall k :: 0 <= k < 8 ==> barred[k] in barred;
    assert barred[0] == ' ' && barred[1] == '\t' && barred[2] == '\n' && barred[3] == '\r';
    assert barred[4] == '\U{000B}' && barred[5] == '\U{000C}' && barred[6] == '[' && barred[7] == ']';
    assert s[0] !in barred && s[|s| - 1] !in barred;
  }

  /** Space around a name, one dot behind it and brackets around it make no difference. */
  lemma OtherSpellings(s: string, padded: string)
    requires Spelled(s) && Trim(padded) == s
    ensures HostText(s) == s && HostText(padded) == s && HostText(s + ".") == s
    ensures Unbracket(s) == s && Unbracket("[" + s + "]") == s
  {
    SpaceGoes(s, padded);
    DotGoes(s);
    BracketsGo(s);
    hide *;
  }

  lemma SpaceGoes(s: string, padded: string)
    requires Spelled(s) && Trim(padded) == s
    ensures HostText(s) == s && HostText(padded) == s
  {
    TrimFixed(s);
    hide Trim;
  }

  lemma BracketsGo(s: string)
    requires Spelled(s)
    ensures Unbracket(s) == s && Unbracket("[" + s + "]") == s
  {
    var inner, outer := s + "]", "[" + s + "]";
    assert Unbracket(s) == s;
    assert inner[|inner| - 1] == ']' && inner[0] == s[0] && inner[..|inner| - 1] == s;
    assert Unbracket(inner) == s;
    assert outer[0] == '[' && outer[1..] == inner;
  }

  lemma DotGoes(s: string)
    requires Spelled(s)
    ensures HostText(s + ".") == s
  {
    var dotted := s + ".";
    assert dotted[0] == s[0] && dotted[|dotted| - 1] == '.';
    TrimFixed(dotted);
    hide Trim;
    assert dotted[..|dotted| - 1] == s;
  }

  lemma NothingGiven()
    ensures HostText("") == ""
  {
    TrimFixed("");
    hide Trim;
  }

  /** Two names are one if they are spelled alike, in any case, or both are addresses and the same one. */
  lemma NamesMean(a: string, b: string, parse: ParseIP)
    requires Spelled(a) && Spelled(b)
    ensures SameDomain(a, b) <==> Lower(a) == Lower(b)
    ensures SameName(a, b, parse) <==>
      if parse(a).Some? && parse(b).Some? then parse(a) == parse(b) else Lower(a) == Lower(b)
    ensures SameName(a + ".", b, parse) == SameName(a, b, parse) && SameDomain(a + ".", b) == SameDomain(a, b)
    ensures !SameDomain("", a) && !SameDomain(a, "")
  {
    hide HostText, Unbracket, Trim;
    TrimFixed(a);
    TrimFixed(b);
    OtherSpellings(a, a);
    OtherSpellings(b, b);
    NothingGiven();
  }

  /** The first name that is not blank. */
  function FirstGiven(names: seq<string>): string {
    if names == [] then "" else if Trim(names[0]) != "" then Key(names[0]) else FirstGiven(names[1..])
  }

  datatype Field = ID | Host | Domain | Alias | SubscriptionAlias | OverlayAddress | PublicKey

  /** Two nodes would be confused with each other by one field. */
  predicate Shared(f: Field, a: Node, b: Node, parse: ParseIP) {
    match f
    case ID => a.id != "" && Key(a.id) == Key(b.id)
    case Host => SameName(a.sshHost, b.sshHost, parse)
    case Domain => SameDomain(a.domain, b.domain)
    case Alias =>
      var x, y := FirstGiven([a.alias, a.domain, a.sshHost]), FirstGiven([b.alias, b.domain, b.sshHost]);
      x != "" && x == y
    case SubscriptionAlias =>
      var x := FirstGiven([a.subscriptionAlias, a.alias, a.domain, a.sshHost]);
      x != "" && x == FirstGiven([b.subscriptionAlias, b.alias, b.domain, b.sshHost])
    case OverlayAddress => a.wgIP != "" && a.wgIP == b.wgIP
    case PublicKey => a.wgPublicKey != "" && a.wgPublicKey == b.wgPublicKey
  }

  lemma TrimmedKey(name: string)
    ensures Key(Trim(name)) == Key(name) && Key("") == "" && (Key(name) == "" <==> Trim(name) == "")
  {
    TrimIdempotent(name);
    TrimFixed("");
    hide Trim;
  }

  lemma FirstOf(name: string, others: seq<string>)
    ensures FirstGiven([name] + others) == if Trim(name) != "" then Key(name) else FirstGiven(others)
  {
    hide Trim, Key;
    assert ([name] + others)[1..] == others;
  }

  lemma AliasesAreGiven(n: Node)
    ensures AliasKey(n) == FirstGiven([n.alias, n.domain, n.sshHost])
    ensures SubscriptionAliasKey(n) == FirstGiven([n.subscriptionAlias, n.alias, n.domain, n.sshHost])
  {
    TrimmedKey(n.alias);
    TrimmedKey(n.domain);
    TrimmedKey(n.sshHost);
    TrimmedKey(n.subscriptionAlias);
    hide Trim, Key;
    FirstOf(n.sshHost, []);
    FirstOf(n.domain, [n.sshHost]);
    FirstOf(n.alias, [n.domain, n.sshHost]);
    FirstOf(n.subscriptionAlias, [n.alias, n.domain, n.sshHost]);
    assert FirstGiven([]) == "";
    hide FirstGiven;
    assert [n.sshHost] + [] == [n.sshHost];
    assert [n.alias] + [n.domain, n.sshHost] == [n.alias, n.domain, n.sshHost];
    assert [n.domain] + [n.sshHost] == [n.domain, n.sshHost];
    assert [n.subscriptionAlias] + [n.alias, n.domain, n.sshHost] == [n.subscriptionAlias, n.alias, n.domain, n.sshHost];
  }

  /** Two nodes are ambiguous exactly if some field of theirs is shared. */
  lemma ConflictMeans(a: Node, b: Node, parse: ParseIP)
    ensures Conflict(a, b, parse) <==> exists f :: Shared(f, a, b, parse)
  {
    AliasesAreGiven(a);
    AliasesAreGiven(b);
    hide Key, AliasKey, SubscriptionAliasKey, FirstGiven, SameName, SameDomain;
    assert Conflict(a, b, parse) ==>
      Shared(ID, a, b, parse) || Shared(Host, a, b, parse) || Shared(Domain, a, b, parse) || Shared(Alias, a, b, parse)
      || Shared(SubscriptionAlias, a, b, parse) || Shared(OverlayAddress, a, b, parse) || Shared(PublicKey, a, b, parse);
  }

  // ------------------------------------------------------------ validation

  /** validateUnique, field by field: an alias that does not change is not checked again. */
  predicate Clashes(existing: Node, candidate: Node, checkAlias: bool, checkSubscriptionAlias: bool, parse: ParseIP) {
    || (checkAlias && SameAlias(candidate, existing))
    || (checkSubscriptionAlias && SameSubscriptionAlias(candidate, existing))
    || SamePlace(candidate, existing, parse)
    || SameAddress(candidate, existing)
  }

  method ValidateUnique(list: seq<Node>, candidate: Node, skip: Option<nat>, parse: ParseIP) returns (ok: bool)
    ensures ok <==>
      var checkAlias := skip.None? || skip.value >= |list| || AliasKey(list[skip.value]) != AliasKey(candidate);
      var checkSubscription := skip.None? || skip.value >= |list| || SubscriptionAliasKey(list[skip.value]) != SubscriptionAliasKey(candidate);
      forall i :: 0 <= i < |list| && skip != Some(i) ==> !Clashes(list[i], candidate, checkAlias, checkSubscription, parse)
  {
    hide AliasKey, SubscriptionAliasKey, Clashes;
    var checkAlias := skip.None? || skip.value >= |list| || AliasKey(list[skip.value]) != AliasKey(candidate);
    var checkSubscription := skip.None? || skip.value >= |list| || SubscriptionAliasKey(list[skip.value]) != SubscriptionAliasKey(candidate);
    for i := 0 to |list|
      invariant forall j :: 0 <= j < i && skip != Some(j) ==> !Clashes(list[j], candidate, checkAlias, checkSubscription, parse)
    {
      if skip == Some(i) { continue; }
      if Clashes(list[i], candidate, checkAlias, checkSubscription, parse) { return false; }
    }
    return true;
  }

  /** Against a distinct registry, skipping the recheck of an unchanged alias loses nothing. */
  lemma UncheckedAliasIsSafe(list: seq<Node>, candidate: Node, skip: Option<nat>, parse: ParseIP)
    requires Distinct(list, parse) && (skip.Some? ==> skip.value < |list|)
    ensures var checkAlias := skip.None? || AliasKey(list[skip.value]) != AliasKey(candidate);
      var checkSubscription := skip.None? || SubscriptionAliasKey(list[skip.value]) != SubscriptionAliasKey(candidate);
      (forall i :: 0 <= i < |list| && skip != Some(i) ==> !Clashes(list[i], candidate, checkAlias, checkSubscription, parse))
      <==> (forall i :: 0 <= i < |list| && skip != Some(i) ==> !Conflict(candidate, list[i], parse))
  {
    hide AliasKey, SubscriptionAliasKey, SamePlace, SameAddress;
    if skip.Some? {
      forall i | 0 <= i < |list| && skip != Some(i) ensures !Conflict(list[skip.value], list[i], parse) { }
    }
  }

  // ------------------------------------------------------------ saving

  function Saved(n: Node): Node {
    Node(Trim(n.id), Trim(n.alias), Trim(n.subscriptionAlias), Trim(n.sshHost), Trim(n.domain), Trim(n.wgIP),
         Trim(n.wgPublicKey), n.settings)
  }

  predicate IsSaved(list: seq<Node>) {
    forall i :: 0 <= i < |list| ==> Saved(list[i]) == list[i]
  }

  lemma SavedIsSaved(n: Node)
    ensures Saved(Saved(n)) == Saved(n)
  {
    hide Trim;
    TrimIdempotent(n.id);
    TrimIdempotent(n.alias);
    TrimIdempotent(n.subscriptionAlias);
    TrimIdempotent(n.sshHost);
    TrimIdempotent(n.domain);
    TrimIdempotent(n.wgIP);
    TrimIdempotent(n.wgPublicKey);
  }

  /** Everything but the overlay address and key is compared trimmed, so saving does not change it. */
  lemma SavingKeepsNames(a: Node, b: Node, parse: ParseIP)
    requires NormalID(a.id)
    ensures AliasKey(Saved(a)) == AliasKey(a) && SubscriptionAliasKey(Saved(a)) == SubscriptionAliasKey(a)
    ensures SamePlace(Saved(a), b, parse) == SamePlace(a, b, parse)
    ensures Saved(a).id == a.id
  {
    hide Trim;
    TrimIdempotent(a.alias);
    TrimIdempotent(a.subscriptionAlias);
    TrimIdempotent(a.domain);
    TrimIdempotent(a.sshHost);
    NormalIsTrimmed(a.id);
    hide Unbracket, Key, Lower;
  }

  lemma NormalIsTrimmed(id: string)
    requires NormalID(id)
    ensures Trim(id) == id
  {
    hide Trim, Key;
    KeyIdempotent(id);
  }

  function SaveAll(list: seq<Node>): seq<Node> {
    seq(|list|, i requires 0 <= i < |list| => Saved(list[i]))
  }

  /** The overlay address and key, as they will be saved, belong to nobody else. */
  predicate AddressIsFree(list: seq<Node>, at: nat, candidate: Node) {
    forall i :: 0 <= i < |list| && i != at ==> !SameAddress(Saved(candidate), list[i])
  }

  predicate Tidy(n: Node) {
    Trim(n.wgIP) == n.wgIP && Trim(n.wgPublicKey) == n.wgPublicKey
  }

  lemma TidyAddressIsFree(list: seq<Node>, at: nat, candidate: Node, parse: ParseIP)
    requires Tidy(candidate) && forall i :: 0 <= i < |list| && i != at ==> !Conflict(candidate, list[i], parse)
    ensures AddressIsFree(list, at, candidate)
  {
    hide Trim, SamePlace, SameAlias, SameSubscriptionAlias;
    forall i | 0 <= i < |list| && i != at ensures !SameAddress(Saved(candidate), list[i]) {
      assert !Conflict(candidate, list[i], parse);
    }
  }

  lemma SavedConflict(candidate: Node, other: Node, parse: ParseIP)
    requires NormalID(candidate.id) && !Conflict(candidate, other, parse)
    ensures Conflict(Saved(candidate), other, parse) <==> SameAddress(Saved(candidate), other)
  {
    SavingKeepsNames(candidate, other, parse);
    hide Saved, AliasKey, SubscriptionAliasKey, SamePlace, SameAddress, NormalID;
  }

  /**
   A saved, distinct list with one accepted candidate in place of entry at: what is
   written is distinct again exactly when the candidate's trimmed address and key are
   nobody else's. Comparing them untrimmed is not enough.
   */
  lemma SaveCandidate(list: seq<Node>, at: nat, candidate: Node, parse: ParseIP)
    requires at < |list| && IsSaved(list) && Distinct(list, parse) && Identified(list) && NormalID(candidate.id)
    requires forall i :: 0 <= i < |list| && i != at ==> !Conflict(candidate, list[i], parse)
    ensures SaveAll(list[at := candidate]) == list[at := Saved(candidate)]
    ensures Saved(candidate).id == candidate.id
    ensures Distinct(SaveAll(list[at := candidate]), parse) <==> AddressIsFree(list, at, candidate)
  {
    SaveAllReplace(list, at, candidate);
    NormalIsTrimmed(candidate.id);
    SavedKeepsID(candidate);
    var c := Saved(candidate);
    assert c.id == candidate.id;
    hide Saved, Conflict, NormalID, SaveAll, SameAddress;
    forall i | 0 <= i < |list| && i != at
      ensures Conflict(c, list[i], parse) == Conflict(list[i], c, parse) == SameAddress(c, list[i])
    {
      SavedConflict(candidate, list[i], parse);
      ConflictSymmetric(c, list[i], parse);
    }
    DistinctReplace(list, at, c, parse);
  }

  lemma SaveAllReplace(list: seq<Node>, at: nat, n: Node)
    requires IsSaved(list) && at < |list|
    ensures SaveAll(list[at := n]) == list[at := Saved(n)]
  {
    hide Saved;
    assert forall i :: 0 <= i < |list| && i != at ==> SaveAll(list[at := n])[i] == list[i];
  }

  lemma DistinctReplace(list: seq<Node>, at: nat, n: Node, parse: ParseIP)
    requires at < |list| && Distinct(list, parse)
    ensures Distinct(list[at := n], parse) <==>
      forall i :: 0 <= i < |list| && i != at ==> !Conflict(n, list[i], parse) && !Conflict(list[i], n, parse)
  {
    hide Conflict;
    var after := list[at := n];
    if Distinct(after, parse) {
      forall i | 0 <= i < |list| && i != at ensures !Conflict(n, list[i], parse) && !Conflict(list[i], n, parse) {
        assert !Conflict(after[at], after[i], parse) && !Conflict(after[i], after[at], parse);
      }
    }
  }

  lemma TrailingSpace(s: string)
    requires Trim(s) == s && s != ""
    ensures Trim(s + " ") == s
  {
    TrimEnds(s);
    var spaced := s + " ";
    assert spaced[0] == s[0] && spaced[..|spaced| - 1] == s;
    UntrimmedLeft(spaced);
    UntrimmedLeft(s);
    DropLastSpace(spaced);
    hide TrimLeft, TrimRight;
  }

  lemma UntrimmedLeft(s: string)
    requires s != "" && !IsSpace(s[0])
    ensures TrimLeft(s) == s
  {
  }

  lemma DropLastSpace(s: string)
    requires s != "" && IsSpace(s[|s| - 1])
    ensures TrimRight(s) == TrimRight(s[..|s| - 1])
  {
  }

  /** Any registered address passes for a new one with a space behind it, and is then saved as the registered one. */
  lemma UntrimmedAddressSlipsThrough(existing: Node, wanted: Node, parse: ParseIP)
    requires Trim(existing.wgIP) == existing.wgIP && existing.wgIP != ""
    requires wanted.wgIP == existing.wgIP + " "
    requires wanted.wgPublicKey == "" || wanted.wgPublicKey != existing.wgPublicKey
    requires !SamePlace(wanted, existing, parse) && !SameAlias(wanted, existing) && !SameSubscriptionAlias(wanted, existing)
    ensures !Conflict(wanted, existing, parse) && Conflict(Saved(wanted), existing, parse)
  {
    TrailingSpace(existing.wgIP);
    hide Trim, SamePlace, SameAlias, SameSubscriptionAlias;
    assert |wanted.wgIP| == |existing.wgIP| + 1;
  }

  /** The same for a candidate added at the end. */
  lemma SaveAppended(list: seq<Node>, candidate: Node, parse: ParseIP)
    requires IsSaved(list) && Distinct(list, parse) && Identified(list) && NormalID(candidate.id)
    requires forall i :: 0 <= i < |list| ==> !Conflict(candidate, list[i], parse)
    ensures SaveAll(list + [candidate]) == list + [Saved(candidate)]
    ensures Distinct(SaveAll(list + [candidate]), parse) <==> AddressIsFree(list, |list|, candidate)
  {
    SaveAllAppend(list, candidate);
    hide Saved, Conflict, NormalID, SaveAll, SameAddress;
    var c := Saved(candidate);
    SavedKeepsID(candidate);
    forall i | 0 <= i < |list|
      ensures Conflict(c, list[i], parse) == Conflict(list[i], c, parse) == SameAddress(c, list[i])
    {
      SavedConflict(candidate, list[i], parse);
      ConflictSymmetric(c, list[i], parse);
    }
    DistinctAppend(list, c, parse);
  }

  lemma SaveAllAppend(list: seq<Node>, n: Node)
    requires IsSaved(list)
    ensures SaveAll(list + [n]) == list + [Saved(n)]
  {
    hide Saved;
    assert forall i :: 0 <= i < |list| ==> SaveAll(list + [n])[i] == list[i];
  }

  lemma DistinctAppend(list: seq<Node>, n: Node, parse: ParseIP)
    ensures Distinct(list + [n], parse) <==>
      Distinct(list, parse) && forall i :: 0 <= i < |list| ==> !Conflict(n, list[i], parse) && !Conflict(list[i], n, parse)
  {
    hide Conflict;
    var more := list + [n];
    if Distinct(more, parse) {
      forall i | 0 <= i < |list| ensures !Conflict(n, list[i], parse) && !Conflict(list[i], n, parse) {
        assert !Conflict(more[|list|], more[i], parse) && !Conflict(more[i], more[|list|], parse);
      }
      forall i, j | 0 <= i < |list| && 0 <= j < |list| && i != j ensures !Conflict(list[i], list[j], parse) {
        assert !Conflict(more[i], more[j], parse);
      }
    }
  }

  lemma SavedKeepsID(n: Node)
    requires NormalID(n.id)
    ensures NormalID(Saved(n).id)
  {
    NormalIsTrimmed(n.id);
  }

  // ------------------------------------------------------------ order

  /** Distinct nodes stay distinct in any list that repeats none of their IDs. */
  lemma MembersDistinct(list: seq<Node>, other: seq<Node>, parse: ParseIP)
    requires Distinct(list, parse) && Identified(list)
    requires forall n :: n in other ==> n in list
    requires forall i, j :: 0 <= i < j < |other| ==> other[i].id != other[j].id
    ensures Distinct(other, parse) && Identified(other)
  {
    hide Conflict, NormalID;
    forall i | 0 <= i < |other| ensures NormalID(other[i].id) {
      assert other[i] in list;
      var m :| 0 <= m < |list| && list[m] == other[i];
    }
    forall i, j | 0 <= i < |other| && 0 <= j < |other| && i != j ensures !Conflict(other[i], other[j], parse) {
      assert other[i] in list && other[j] in list;
      var m, k :| 0 <= m < |list| && 0 <= k < |list| && list[m] == other[i] && list[k] == other[j];
      assert m != k;
    }
  }

  lemma DistinctIDs(list: seq<Node>, parse: ParseIP)
    requires Distinct(list, parse) && Identified(list)
    ensures forall i, j :: 0 <= i < j < |list| ==> list[i].id != list[j].id
  {
    forall i, j | 0 <= i < j < |list| ensures list[i].id != list[j].id {
      assert !Conflict(list[i], list[j], parse);
    }
  }

  /** The nodes whose IDs are not requested, in their old order. */
  function Unlisted(list: seq<Node>, ids: seq<string>): seq<Node> {
    if list == [] then []
    else
      var rest, last := Unlisted(list[..|list| - 1], ids), list[|list| - 1];
      if last.id in ids then rest else rest + [last]
  }

  /** The others keep their order: of a list in two parts first the one's, then the other's. */
  lemma {:induction false} UnlistedJoin(a: seq<Node>, b: seq<Node>, ids: seq<string>)
    ensures Unlisted(a + b, ids) == Unlisted(a, ids) + Unlisted(b, ids)
    ensures forall n :: Unlisted([n], ids) == if n.id in ids then [] else [n]
  {
    forall n: Node ensures Unlisted([n], ids) == if n.id in ids then [] else [n] {
      assert [n][..0] == [];
    }
    if b == [] {
      assert a + b == a;
    } else {
      assert (a + b)[..|a + b| - 1] == a + b[..|b| - 1];
      UnlistedJoin(a, b[..|b| - 1], ids);
    }
  }

  lemma {:induction false} UnlistedMeans(list: seq<Node>, ids: seq<string>)
    requires forall i, j :: 0 <= i < j < |list| ==> list[i].id != list[j].id
    ensures forall n :: n in Unlisted(list, ids) <==> n in list && n.id !in ids
    ensures forall i, j :: 0 <= i < j < |Unlisted(list, ids)| ==> Unlisted(list, ids)[i].id != Unlisted(list, ids)[j].id
  {
    if list != [] {
      var shorter, last := list[..|list| - 1], list[|list| - 1];
      UnlistedMeans(shorter, ids);
      assert forall n :: n in list <==> n in shorter || n == last;
      assert forall n :: n in shorter ==> n.id != last.id;
    }
  }

  lemma {:induction false} NoRepeats(s: seq<Node>, n: Node)
    requires forall i, j :: 0 <= i < j < |s| ==> s[i].id != s[j].id
    ensures multiset(s)[n] == if n in s then 1 else 0
  {
    if s != [] {
      var shorter, last := s[..|s| - 1], s[|s| - 1];
      assert s == shorter + [last];
      NoRepeats(shorter, n);
      assert last !in shorter;
    }
  }

  /** Two lists that repeat no ID and have the same members are permutations of each other. */
  lemma SameMembersPermute(s: seq<Node>, t: seq<Node>)
    requires forall i, j :: 0 <= i < j < |s| ==> s[i].id != s[j].id
    requires forall i, j :: 0 <= i < j < |t| ==> t[i].id != t[j].id
    requires forall n :: n in s <==> n in t
    ensures multiset(s) == multiset(t)
  {
    forall n ensures multiset(s)[n] == multiset(t)[n] {
      NoRepeats(s, n);
      NoRepeats(t, n);
    }
  }

  /** The requested nodes first, in the requested order, then the others as they stood. */
  ghost predicate Reordered(before: seq<Node>, ids: seq<string>, after: seq<Node>) {
    && |ids| <= |after|
    && (forall i :: 0 <= i < |ids| ==> after[i].id == ids[i])
    && after[|ids|..] == Unlisted(before, ids)
    && multiset(after) == multiset(before)
  }

  lemma ReorderedIsDistinct(before: seq<Node>, ids: seq<string>, front: seq<Node>, parse: ParseIP)
    requires Distinct(before, parse) && Identified(before)
    requires |front| == |ids| && forall i :: 0 <= i < |ids| ==> front[i] in before && front[i].id == ids[i]
    requires forall i, j :: 0 <= i < j < |ids| ==> ids[i] != ids[j]
    ensures Reordered(before, ids, front + Unlisted(before, ids))
    ensures Distinct(front + Unlisted(before, ids), parse)
  {
    DistinctIDs(before, parse);
    UnlistedMeans(before, ids);
    FrontAndRest(before, ids, front, Unlisted(before, ids));
    hide Distinct, Identified, Unlisted;
    var after := front + Unlisted(before, ids);
    SameMembersPermute(before, after);
    MembersDistinct(before, after, parse);
  }

  /** Front and rest together repeat no ID and have the members of the whole. */
  lemma FrontAndRest(before: seq<Node>, ids: seq<string>, front: seq<Node>, rest: seq<Node>)
    requires forall i, j :: 0 <= i < j < |before| ==> before[i].id != before[j].id
    requires |front| == |ids| && forall i :: 0 <= i < |ids| ==> front[i] in before && front[i].id == ids[i]
    requires forall i, j :: 0 <= i < j < |ids| ==> ids[i] != ids[j]
    requires forall n :: n in rest <==> n in before && n.id !in ids
    requires forall i, j :: 0 <= i < j < |rest| ==> rest[i].id != rest[j].id
    ensures forall i, j :: 0 <= i < j < |front + rest| ==> (front + rest)[i].id != (front + rest)[j].id
    ensures forall n :: n in front + rest <==> n in before
  {
    var after := front + rest;
    forall i, j | 0 <= i < j < |after| ensures after[i].id != after[j].id {
      if i < |ids| <= j {
        assert after[j] in rest;
      }
    }
    forall n | n in before ensures n in after {
      if n.id in ids {
        var i :| 0 <= i < |ids| && ids[i] == n.id;
        OneNodePerID(before, front[i], n);
        assert after[i] == n;
      } else {
        assert n in rest;
      }
    }
  }

  lemma OneNodePerID(list: seq<Node>, a: Node, b: Node)
    requires forall i, j :: 0 <= i < j < |list| ==> list[i].id != list[j].id
    requires a in list && b in list && a.id == b.id
    ensures a == b
  {
  }

  // ------------------------------------------------------------ the transactions

  type LegacyID = (Node, nat) -> string

  /** normalizeNodeIDs on one entry: a blank ID is derived from the entry and its position. */
  function WithID(n: Node, position: nat, legacyID: LegacyID): Node {
    n.(id := if n.id == "" then legacyID(n, position) else Key(n.id))
  }

  /** An entry keeps the ID it has, in normal form, and everything else; only a blank one gets a new ID. */
  lemma MigrationKeeps(n: Node, position: nat, legacyID: LegacyID)
    ensures n.id != "" ==> WithID(n, position, legacyID) == n.(id := Key(n.id))
    ensures NormalID(n.id) ==> WithID(n, position, legacyID) == n
    ensures n.id == "" ==> WithID(n, position, legacyID) == n.(id := legacyID(n, position))
  {
  }

  function WithIDs(list: seq<Node>, legacyID: LegacyID): seq<Node> {
    seq(|list|, i requires 0 <= i < |list| => WithID(list[i], i, legacyID))
  }

  ghost predicate NoRepeatedID(list: seq<Node>) {
    forall i, j :: 0 <= i < j < |list| ==> list[i].id != list[j].id
  }

  method NormalizeNodeIDs(list: seq<Node>, legacyID: LegacyID) returns (r: Option<seq<Node>>)
    ensures r.Some? <==> NoRepeatedID(WithIDs(list, legacyID))
    ensures r.Some? ==> r.value == WithIDs(list, legacyID)
  {
    hide WithID;
    var used: set<string> := {};
    var done: seq<Node> := [];
    for i := 0 to |list|
      invariant |done| == i && forall j :: 0 <= j < i ==> done[j] == WithID(list[j], j, legacyID)
      invariant forall id :: id in used <==> exists j :: 0 <= j < i && done[j].id == id
      invariant NoRepeatedID(done)
    {
      var n := WithID(list[i], i, legacyID);
      if n.id in used {
        var j :| 0 <= j < i && done[j].id == n.id;
        assert WithIDs(list, legacyID)[j].id == WithIDs(list, legacyID)[i].id;
        return None;
      }
      ghost var before := done;
      used := used + {n.id};
      done := done + [n];
      assert forall j :: 0 <= j < i ==> done[j] == before[j];
    }
    assert done == WithIDs(list, legacyID);
    r := Some(done);
  }

  /** A registry as stored: saved and distinct, its IDs normal or still blank. */
  ghost predicate Sound(list: seq<Node>, parse: ParseIP) {
    IsSaved(list) && Distinct(list, parse)
  }

  lemma WithIDsSound(list: seq<Node>, parse: ParseIP, legacyID: LegacyID)
    requires Sound(list, parse) && NoRepeatedID(WithIDs(list, legacyID))
    requires forall n: Node, i: nat :: NormalID(legacyID(n, i))
    ensures Sound(WithIDs(list, legacyID), parse) && Identified(WithIDs(list, legacyID))
  {
    hide Trim, Key, SameName, SameDomain, AliasKey, SubscriptionAliasKey;
    var t := WithIDs(list, legacyID);
    forall i | 0 <= i < |t| ensures NormalID(t[i].id) && Saved(t[i]) == t[i] {
      assert Saved(list[i]) == list[i];
      if list[i].id != "" {
        KeyIdempotent(list[i].id);
        KeyOfSomething(list[i].id);
      }
      NormalIsTrimmed(t[i].id);
    }
    forall i, j | 0 <= i < |t| && 0 <= j < |t| && i != j ensures !Conflict(t[i], t[j], parse) {
      assert !Conflict(list[i], list[j], parse);
      SameNames(t[i], list[i]);
      SameNames(t[j], list[j]);
      assert t[i].id != t[j].id by { assert i < j || j < i; }
    }
  }

  /** A trimmed text that is not empty has a key that is not. */
  lemma KeyOfSomething(s: string)
    ensures Trim(s) == s && s != "" ==> Key(s) != ""
  {
  }

  lemma SameNames(a: Node, b: Node)
    requires a == b.(id := a.id)
    ensures AliasKey(a) == AliasKey(b) && SubscriptionAliasKey(a) == SubscriptionAliasKey(b)
  {
    hide Trim, Key;
  }

  lemma SavedListStays(list: seq<Node>)
    requires IsSaved(list)
    ensures SaveAll(list) == list
  {
  }

  lemma SaveAllSaves(list: seq<Node>)
    ensures IsSaved(SaveAll(list))
  {
    hide Saved;
    forall i | 0 <= i < |list| ensures Saved(SaveAll(list)[i]) == SaveAll(list)[i] {
      SavedIsSaved(list[i]);
    }
  }

  /** Nobody else in the list is ambiguous with the candidate. */
  ghost predicate Accepted(list: seq<Node>, at: nat, candidate: Node, parse: ParseIP) {
    forall i :: 0 <= i < |list| && i != at ==> !Conflict(candidate, list[i], parse)
  }

  /** The tail shared by Update and Mutate: validate against the others, then store. */
  method Replace(list: seq<Node>, at: nat, candidate: Node, parse: ParseIP) returns (ok: bool, after: seq<Node>)
    requires at < |list| && Sound(list, parse) && Identified(list) && NormalID(candidate.id)
    ensures ok <==> Accepted(list, at, candidate, parse)
    ensures ok ==> after == list[at := Saved(candidate)]
    ensures ok ==> (Sound(after, parse) <==> AddressIsFree(list, at, candidate))
  {
    hide Conflict, Clashes, Saved, NormalID;
    ok := ValidateUnique(list, candidate, Some(at), parse);
    UncheckedAliasIsSafe(list, candidate, Some(at), parse);
    after := SaveAll(list[at := candidate]);
    if ok {
      SaveCandidate(list, at, candidate, parse);
      SaveAllSaves(list[at := candidate]);
    }
  }

  method FindID(list: seq<Node>, id: string) returns (at: Option<nat>)
    ensures at.Some? ==> at.value < |list| && list[at.value].id == id
    ensures at.None? ==> forall i :: 0 <= i < |list| ==> list[i].id != id
  {
    for i := 0 to |list|
      invariant forall j :: 0 <= j < i ==> list[j].id != id
    {
      if list[i].id == id { return Some(i); }
    }
    return None;
  }

  method FindAddress(list: seq<Node>, wgIP: string) returns (at: Option<nat>)
    ensures at.Some? ==> at.value < |list| && list[at.value].wgIP == wgIP && forall j :: 0 <= j < at.value ==> list[j].wgIP != wgIP
    ensures at.None? ==> forall i :: 0 <= i < |list| ==> list[i].wgIP != wgIP
  {
    for i := 0 to |list|
      invariant forall j :: 0 <= j < i ==> list[j].wgIP != wgIP
    {
      if list[i].wgIP == wgIP { return Some(i); }
    }
    return None;
  }

  method FindLowered(list: seq<Node>, lowered: string) returns (at: Option<nat>)
    ensures at.Some? ==> at.value < |list| && Lower(list[at.value].id) == lowered
    ensures at.None? ==> forall i :: 0 <= i < |list| ==> Lower(list[i].id) != lowered
  {
    for i := 0 to |list|
      invariant forall j :: 0 <= j < i ==> Lower(list[j].id) != lowered
    {
      if Lower(list[i].id) == lowered { return Some(i); }
    }
    return None;
  }

  /** Entry at is the one the text removes: its ID in any case, or, if that is nobody's, the first such address. */
  ghost predicate Answers(list: seq<Node>, at: nat, text: string) {
    && at < |list|
    && if exists n :: n in list && Lower(n.id) == Lower(text) then Lower(list[at].id) == Lower(text)
       else list[at].wgIP == text && forall j :: 0 <= j < at ==> list[j].wgIP != text
  }

  method FindAnswer(list: seq<Node>, text: string) returns (at: Option<nat>)
    ensures at.Some? ==> at.value < |list| && Answers(list, at.value, text)
    ensures at.None? ==> forall i :: !Answers(list, i, text)
    ensures at.None? ==> forall n :: n in list ==> Lower(n.id) != Lower(text)
  {
    hide Lower;
    at := FindLowered(list, Lower(text));
    if at.None? { at := FindAddress(list, text); }
  }

  ghost predicate Removes(list: seq<Node>, at: nat, text: string, after: seq<Node>) {
    Answers(list, at, text) && after == list[..at] + list[at + 1..]
  }

  /** The callback succeeds on entry at, keeps its identity, and its result gets along with the others. */
  ghost predicate Mutable(list: seq<Node>, at: nat, id: string, mutate: Node -> Option<Node>, parse: ParseIP) {
    && at < |list| && list[at].id == id
    && mutate(list[at]).Some? && Key(mutate(list[at]).value.id) == id
    && Accepted(list, at, mutate(list[at]).value.(id := id), parse)
  }

  lemma OneWithID(list: seq<Node>, i: nat, j: nat)
    requires NoRepeatedID(list) && i < |list| && j < |list| && list[i].id == list[j].id
    ensures i == j
  {
  }

  /** How Update finds the entry it replaces. */
  predicate Matches(n: Node, wanted: Node) {
    if Key(wanted.id) != "" then n.id == Key(wanted.id) else wanted.wgIP != "" && n.wgIP == wanted.wgIP
  }

  /** An update addresses one entry: the one with its ID, or without an ID the one at its address. */
  lemma MatchesOne(list: seq<Node>, k: nat, wanted: Node, parse: ParseIP)
    requires Distinct(list, parse) && Identified(list) && k < |list|
    requires Key(wanted.id) == list[k].id || (Key(wanted.id) == "" && wanted.wgIP != "" && wanted.wgIP == list[k].wgIP)
    ensures forall j :: 0 <= j < |list| ==> (Matches(list[j], wanted) <==> j == k)
  {
    hide Key, SamePlace, SameAlias, SameSubscriptionAlias;
    DistinctIDs(list, parse);
    forall j | 0 <= j < |list| && j != k ensures !Matches(list[j], wanted) {
      assert !Conflict(list[j], list[k], parse);
    }
  }

  method Locate(list: seq<Node>, wanted: Node) returns (at: Option<nat>)
    ensures at.Some? ==> at.value < |list| && Matches(list[at.value], wanted)
    ensures at.None? ==> forall i :: 0 <= i < |list| ==> !Matches(list[i], wanted)
  {
    hide Key;
    at := None;
    if Key(wanted.id) != "" {
      at := FindID(list, Key(wanted.id));
    } else if wanted.wgIP != "" {
      at := FindAddress(list, wanted.wgIP);
    }
  }

  /** The entry keeps the identity it is stored under. */
  lemma MatchKeepsID(n: Node, wanted: Node)
    requires Matches(n, wanted) && NormalID(n.id)
    ensures (if Key(wanted.id) == "" then n.id else Key(wanted.id)) == n.id
  {
  }

  datatype Change = NotFound | Refused | Stored

  class Store {
    var nodes: seq<Node>
    const parse: ParseIP
    const legacyID: LegacyID

    ghost predicate Valid()
      reads this
    {
      Sound(nodes, parse) && forall n: Node, i: nat :: NormalID(legacyID(n, i))
    }

    /** The list a transaction works on. */
    ghost function Current(): seq<Node>
      reads this
    {
      WithIDs(nodes, legacyID)
    }

    constructor (nodes: seq<Node>, parse: ParseIP, legacyID: LegacyID)
      requires Sound(nodes, parse) && forall n: Node, i: nat :: NormalID(legacyID(n, i))
      ensures Valid() && this.nodes == nodes && this.parse == parse && this.legacyID == legacyID
    {
      this.nodes, this.parse, this.legacyID := nodes, parse, legacyID;
    }

    /** The head of every transaction; two entries with one ID make the registry unreadable. */
    method Begin() returns (list: Option<seq<Node>>)
      requires Valid()
      ensures list.Some? <==> NoRepeatedID(Current())
      ensures list.Some? ==> list.value == Current() && Sound(list.value, parse) && Identified(list.value)
    {
      hide NormalID, Sound, Identified;
      list := NormalizeNodeIDs(nodes, legacyID);
      if list.Some? { WithIDsSound(nodes, parse, legacyID); }
    }

    /** Add: generated is the random identity used when the caller brings none. */
    method Add(wanted: Node, generated: Option<string>) returns (ok: bool)
      requires Valid() && (generated.Some? ==> NormalID(generated.value))
      modifies this
      ensures !ok ==> nodes == old(nodes)
      ensures var id := if Key(wanted.id) != "" then Some(Key(wanted.id)) else generated;
        var list := old(Current());
        && (ok <==> id.Some? && NoRepeatedID(list) && Accepted(list, |list|, wanted.(id := id.value), parse))
        && (ok ==> nodes == list + [Saved(wanted.(id := id.value))])
        && (ok ==> (Valid() <==> AddressIsFree(list, |list|, wanted)))
        && (ok && Tidy(wanted) ==> Valid())
    {
      hide Conflict, Clashes, Saved, Sound, WithIDs, SameAddress, Identified, Tidy;
      var id := Key(wanted.id);
      if id == "" {
        if generated.None? { return false; }
        id := generated.value;
      }
      KeyIdempotent(wanted.id);
      assert NormalID(id);
      hide NormalID, Key;
      var n := wanted.(id := id);
      var list := Begin();
      if list.None? { return false; }
      ok := Append(list.value, n);
      SameAddressAs(n, wanted);
    }

    method Append(list: seq<Node>, n: Node) returns (ok: bool)
      requires Valid() && Sound(list, parse) && Identified(list) && NormalID(n.id)
      modifies this
      ensures !ok ==> nodes == old(nodes)
      ensures ok <==> Accepted(list, |list|, n, parse)
      ensures ok ==> nodes == list + [Saved(n)]
      ensures ok ==> (Valid() <==> AddressIsFree(list, |list|, n))
      ensures ok && Tidy(n) ==> Valid()
    {
      hide Conflict, Clashes, Saved, NormalID, Tidy;
      ok := ValidateUnique(list, n, None, parse);
      UncheckedAliasIsSafe(list, n, None, parse);
      if ok {
        SaveAppended(list, n, parse);
        SaveAllSaves(list + [n]);
        nodes := SaveAll(list + [n]);
        if Tidy(n) { TidyAddressIsFree(list, |list|, n, parse); }
      }
    }

    /** Update: by ID, or by overlay address for a caller that has none. */
    method Update(wanted: Node) returns (r: Change)
      requires Valid()
      modifies this
      ensures !r.Stored? ==> nodes == old(nodes)
      ensures r.NotFound? ==> !NoRepeatedID(old(Current())) || forall n :: n in old(Current()) ==> !Matches(n, wanted)
      ensures !r.NotFound? ==> exists at :: Updates(old(Current()), at, wanted, r)
    {
      hide Conflict, Clashes, Saved, Sound, Accepted, AddressIsFree, Tidy, WithIDs, NormalID, Key, Matches;
      var begun := Begin();
      if begun.None? { return NotFound; }
      var list := begun.value;
      var at := Locate(list, wanted);
      if at.None? { return NotFound; }
      var candidate := wanted.(id := if Key(wanted.id) == "" then list[at.value].id else Key(wanted.id));
      MatchKeepsID(list[at.value], wanted);
      r := StoreOver(list, at.value, candidate);
      assert Updates(list, at.value, wanted, r);
    }

    /** Candidate takes the place of entry at, if it gets along with the others. */
    ghost predicate Stores(list: seq<Node>, at: nat, candidate: Node, r: Change)
      reads this
    {
      && at < |list|
      && (r.Stored? <==> Accepted(list, at, candidate, parse))
      && (r.Stored? ==> nodes == list[at := Saved(candidate)])
      && (r.Stored? ==> (Valid() <==> AddressIsFree(list, at, candidate)))
      && (r.Stored? && Tidy(candidate) ==> Valid())
    }

    ghost predicate Updates(list: seq<Node>, at: nat, wanted: Node, r: Change)
      reads this
    {
      && at < |list| && Matches(list[at], wanted)
      && Stores(list, at, wanted.(id := list[at].id), r)
    }

    method StoreOver(list: seq<Node>, at: nat, candidate: Node) returns (r: Change)
      requires Valid() && at < |list| && Sound(list, parse) && Identified(list) && NormalID(candidate.id)
      modifies this
      ensures !r.NotFound? && Stores(list, at, candidate, r)
      ensures !r.Stored? ==> nodes == old(nodes)
    {
      hide Conflict, Clashes, Saved, NormalID, Tidy, SameAddress;
      var ok, after := Replace(list, at, candidate, parse);
      if !ok { return Refused; }
      nodes := after;
      if Tidy(candidate) { TidyAddressIsFree(list, at, candidate, parse); }
      r := Stored;
    }

    /** Mutate: the callback sees the current value. */
    method Mutate(id: string, mutate: Node -> Option<Node>) returns (r: Change)
      requires Valid()
      modifies this
      ensures !r.Stored? ==> nodes == old(nodes)
      ensures r.Stored? <==> Key(id) != "" && NoRepeatedID(old(Current())) && exists at :: Mutable(old(Current()), at, Key(id), mutate, parse)
      ensures r.Stored? ==> exists at :: Mutates(old(Current()), at, Key(id), mutate, r)
      ensures r.NotFound? <==> Key(id) != "" && NoRepeatedID(old(Current())) && forall n :: n in old(Current()) ==> n.id != Key(id)
    {
      hide Conflict, Clashes, Saved, Sound, Accepted, AddressIsFree, Tidy, WithIDs, NormalID, Key, NoRepeatedID;
      var key := Key(id);
      if key == "" { return Refused; }
      var begun := Begin();
      if begun.None? { return Refused; }
      var list := begun.value;
      var at := FindID(list, key);
      if at.None? { return NotFound; }
      forall i: nat | i < |list| && list[i].id == key ensures i == at.value {
        OneWithID(list, i, at.value);
      }
      var changed := mutate(list[at.value]);
      if changed.None? { return Refused; }
      var candidate := changed.value.(id := Key(changed.value.id));
      if candidate.id != key { return Refused; }
      r := StoreOver(list, at.value, candidate);
      assert r.Stored? <==> Mutable(list, at.value, key, mutate, parse);
      assert r.Stored? ==> Mutates(list, at.value, key, mutate, r);
    }

    /** Entry at holds what the callback made of it. */
    ghost predicate Mutates(list: seq<Node>, at: nat, id: string, mutate: Node -> Option<Node>, r: Change)
      reads this
    {
      Mutable(list, at, id, mutate, parse) && Stores(list, at, mutate(list[at]).value.(id := id), r)
    }

    /** Remove: by ID in any case, else by overlay address; nothing else goes. */
    method Remove(identifier: string) returns (ok: bool)
      requires Valid()
      modifies this
      ensures Valid()
      ensures !ok ==> nodes == old(nodes)
      ensures ok <==> NoRepeatedID(old(Current()))
      ensures var list, text := old(Current()), Trim(identifier);
        ok ==> if exists at :: Answers(list, at, text) then exists at :: Removes(list, at, text, nodes) else nodes == list
      ensures ok ==> forall n :: n in nodes ==> Lower(n.id) != Lower(Trim(identifier))
    {
      hide Conflict, Saved, WithIDs, Trim, Lower, Answers, Identified, NoRepeatedID;
      var text := Trim(identifier);
      var begun := Begin();
      if begun.None? { return false; }
      var list := begun.value;
      var at := FindAnswer(list, text);
      SavedListStays(list);
      if at.None? {
        nodes := list;
      } else {
        WithoutOne(list, at.value, parse);
        NobodyLeft(list, at.value, text);
        nodes := list[..at.value] + list[at.value + 1..];
        assert Removes(list, at.value, text, nodes);
      }
      ok := true;
    }

    /** Reorder: the requested nodes first, in order, the others behind as they stood; a permutation. */
    method Reorder(orderedIDs: seq<string>) returns (ok: bool)
      requires Valid()
      modifies this
      ensures Valid()
      ensures !ok ==> nodes == old(nodes)
      ensures ok <==> Requestable(Keys(orderedIDs)) && NoRepeatedID(old(Current())) && Known(old(Current()), Keys(orderedIDs))
      ensures ok <==>
        && NoRepeatedID(old(Current()))
        && (forall i :: 0 <= i < |orderedIDs| ==> Key(orderedIDs[i]) != "" && exists n :: n in old(Current()) && n.id == Key(orderedIDs[i]))
        && forall i, j :: 0 <= i < j < |orderedIDs| ==> Key(orderedIDs[i]) != Key(orderedIDs[j])
      ensures ok ==> Reordered(old(Current()), Keys(orderedIDs), nodes)
    {
      hide Conflict, Saved, WithIDs, NormalID;
      RequestMeans(Current(), orderedIDs);
      var fine, ids := RequestedIDs(orderedIDs);
      if !fine { return false; }
      var begun := Begin();
      if begun.None? { return false; }
      var list := begun.value;
      var front;
      ok, front := Front(list, ids);
      if !ok { return; }
      ReorderedIsDistinct(list, ids, front, parse);
      var rest := Rest(list, ids);
      nodes := front + rest;
      MembersSaved(list, nodes, ids, front);
    }
  }

  function Keys(ids: seq<string>): seq<string> {
    seq(|ids|, i requires 0 <= i < |ids| => Key(ids[i]))
  }

  predicate Requestable(ids: seq<string>) {
    (forall i :: 0 <= i < |ids| ==> ids[i] != "") && forall i, j :: 0 <= i < j < |ids| ==> ids[i] != ids[j]
  }

  lemma RequestMeans(list: seq<Node>, orderedIDs: seq<string>)
    ensures Requestable(Keys(orderedIDs)) && Known(list, Keys(orderedIDs)) <==>
      && (forall i :: 0 <= i < |orderedIDs| ==> Key(orderedIDs[i]) != "" && exists n :: n in list && n.id == Key(orderedIDs[i]))
      && forall i, j :: 0 <= i < j < |orderedIDs| ==> Key(orderedIDs[i]) != Key(orderedIDs[j])
  {
    hide Key;
    var ids := Keys(orderedIDs);
    assert forall i :: 0 <= i < |ids| ==> ids[i] == Key(orderedIDs[i]);
    forall i | 0 <= i < |ids| ensures HasID(list, ids[i]) <==> exists n :: n in list && n.id == Key(orderedIDs[i]) {
      if n :| n in list && n.id == ids[i] {
        var k :| 0 <= k < |list| && list[k] == n;
      }
      if k :| 0 <= k < |list| && list[k].id == ids[i] { assert list[k] in list; }
    }
    hide HasID;
  }

  method RequestedIDs(orderedIDs: seq<string>) returns (ok: bool, ids: seq<string>)
    ensures ok <==> Requestable(Keys(orderedIDs))
    ensures ok ==> ids == Keys(orderedIDs)
  {
    hide Key;
    ids := [];
    for i := 0 to |orderedIDs|
      invariant |ids| == i && forall j :: 0 <= j < i ==> ids[j] == Keys(orderedIDs)[j]
      invariant Requestable(ids)
    {
      var id := Key(orderedIDs[i]);
      assert id == Keys(orderedIDs)[i];
      if id == "" { return false, []; }
      if id in ids {
        var j :| 0 <= j < i && ids[j] == id;
        assert Keys(orderedIDs)[j] == Keys(orderedIDs)[i];
        return false, [];
      }
      ids := ids + [id];
    }
    assert ids == Keys(orderedIDs);
    ok := true;
  }

  ghost predicate HasID(list: seq<Node>, id: string) {
    exists i :: 0 <= i < |list| && list[i].id == id
  }

  ghost predicate Known(list: seq<Node>, ids: seq<string>) {
    forall i :: 0 <= i < |ids| ==> HasID(list, ids[i])
  }

  method Front(list: seq<Node>, ids: seq<string>) returns (ok: bool, front: seq<Node>)
    ensures ok <==> Known(list, ids)
    ensures ok ==> |front| == |ids| && forall i :: 0 <= i < |ids| ==> front[i] in list && front[i].id == ids[i]
  {
    front := [];
    for i := 0 to |ids|
      invariant |front| == i && forall j :: 0 <= j < i ==> front[j] in list && front[j].id == ids[j] && HasID(list, ids[j])
    {
      var at := FindID(list, ids[i]);
      if at.None? {
        assert !HasID(list, ids[i]);
        return false, front;
      }
      assert list[at.value] in list && HasID(list, ids[i]);
      front := front + [list[at.value]];
    }
    ok := true;
  }

  method Rest(list: seq<Node>, ids: seq<string>) returns (rest: seq<Node>)
    ensures rest == Unlisted(list, ids)
  {
    rest := [];
    for i := 0 to |list|
      invariant rest == Unlisted(list[..i], ids)
    {
      assert list[..i + 1][..i] == list[..i];
      if list[i].id !in ids { rest := rest + [list[i]]; }
    }
    assert list[..|list|] == list;
  }

  lemma MembersSaved(list: seq<Node>, after: seq<Node>, ids: seq<string>, front: seq<Node>)
    requires IsSaved(list) && NoRepeatedID(list) && after == front + Unlisted(list, ids)
    requires forall i :: 0 <= i < |front| ==> front[i] in list
    ensures IsSaved(after)
  {
    hide Saved;
    UnlistedMeans(list, ids);
    forall i | 0 <= i < |after| ensures Saved(after[i]) == after[i] {
      if i >= |front| { assert after[i] in Unlisted(list, ids); }
      assert after[i] in list;
    }
  }

  lemma SameAddressAs(a: Node, b: Node)
    requires a == b.(id := a.id)
    ensures forall list: seq<Node>, at: nat :: AddressIsFree(list, at, a) <==> AddressIsFree(list, at, b)
    ensures Tidy(a) == Tidy(b)
  {
    hide Trim;
  }

  lemma IDsDifferLowered(list: seq<Node>)
    requires Identified(list) && NoRepeatedID(list)
    ensures forall i, j :: 0 <= i < j < |list| ==> Lower(list[i].id) != Lower(list[j].id)
  {
    hide Key, Trim, Lower;
    forall i | 0 <= i < |list| ensures Lower(list[i].id) == list[i].id {
      LowerOfNormal(list[i].id);
    }
  }

  lemma LowerOfNormal(id: string)
    requires NormalID(id)
    ensures Lower(id) == id
  {
    NormalIsTrimmed(id);
  }

  lemma NobodyLeft(list: seq<Node>, at: nat, text: string)
    requires Identified(list) && NoRepeatedID(list) && Answers(list, at, text)
    ensures forall n :: n in list[..at] + list[at + 1..] ==> Lower(n.id) != Lower(text)
  {
    IDsDifferLowered(list);
    hide Lower, Identified, NoRepeatedID;
    forall n | n in list[..at] + list[at + 1..] ensures Lower(n.id) != Lower(text) {
      assert n in list[..at] || n in list[at + 1..];
      var i: nat :| i < |list| && i != at && list[i] == n;
      assert Lower(list[i].id) != Lower(list[at].id);
    }
  }

  lemma WithoutOne(list: seq<Node>, at: nat, parse: ParseIP)
    requires at < |list| && Sound(list, parse)
    ensures Sound(list[..at] + list[at + 1..], parse)
  {
    hide Conflict, Saved;
    var rest := list[..at] + list[at + 1..];
    assert forall i :: 0 <= i < |rest| ==> rest[i] == list[if i < at then i else i + 1];
  }
}
