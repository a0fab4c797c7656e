/**
 Relay links (internal/relaylinks/relaylinks.go) and the three views the hub derives
 from them (internal/hubctl/relay.go): the ruleset a relay installs, the topology the
 dashboard shows, and the endpoint rewrites subscriptions publish.
 */
module Relay {
  import opened Wrappers
  import opened Text

  // ------------------------------------------------------------ links and endpoints

  datatype Forward = Forward(protocol: string, network: string, relayPort: int)

  datatype Link = Link(landing: string, relay: string, forwards: seq<Forward>)

  datatype Served = Served(protocol: string, port: int)

  datatype Endpoint = Endpoint(id: string, name: string, domain: string, installed: bool, protocols: seq<Served>)

  const HUB: string := "hub"

  /** decodeLink and Set store both IDs normalised. */
  predicate Normalized(links: seq<Link>) {
    forall i :: 0 <= i < |links| ==> NormalLink(links[i])
  }

  predicate NormalLink(l: Link) {
    Key(l.landing) == l.landing && Key(l.relay) == l.relay
  }

  /** ProtocolPort: the first listed port that is positive. */
  function ProtocolPort(protocols: seq<Served>, protocol: string): Option<int> {
    if protocols == [] then None
    else if protocols[0].protocol == protocol && protocols[0].port > 0 then Some(protocols[0].port)
    else ProtocolPort(protocols[1..], protocol)
  }

  /** RelayEndpointByID. */
  function EndpointByID(endpoints: seq<Endpoint>, id: string): Option<Endpoint> {
    if endpoints == [] then None
    else if Lower(endpoints[0].id) == Key(id) then Some(endpoints[0])
    else EndpointByID(endpoints[1..], id)
  }

  /** Entry k is the first the ID names: IDs are compared in any case, the one looked up also trimmed. */
  ghost predicate FirstNamed(endpoints: seq<Endpoint>, id: string, k: nat) {
    && k < |endpoints| && Lower(endpoints[k].id) == Key(id)
    && forall j :: 0 <= j < k ==> Lower(endpoints[j].id) != Key(id)
  }

  /** The fleet member an ID names. */
  ghost predicate Named(endpoints: seq<Endpoint>, id: string, e: Endpoint) {
    exists k: nat :: FirstNamed(endpoints, id, k) && endpoints[k] == e
  }

  lemma {:induction false} EndpointFound(endpoints: seq<Endpoint>, id: string)
    ensures forall e :: EndpointByID(endpoints, id) == Some(e) <==> Named(endpoints, id, e)
    ensures EndpointByID(endpoints, id).None? <==> forall k :: 0 <= k < |endpoints| ==> Lower(endpoints[k].id) != Key(id)
  {
    hide Key, Lower;
    if endpoints != [] {
      var head, tail := endpoints[0], endpoints[1..];
      EndpointFound(tail, id);
      if Lower(head.id) == Key(id) {
        assert FirstNamed(endpoints, id, 0);
      } else {
        forall e ensures Named(tail, id, e) <==> Named(endpoints, id, e) {
          if k: nat :| FirstNamed(tail, id, k) && tail[k] == e {
            assert FirstNamed(endpoints, id, k + 1);
          }
          if k: nat :| FirstNamed(endpoints, id, k) && endpoints[k] == e {
            assert tail[k - 1] == e && forall j :: 0 <= j < k - 1 ==> tail[j] == endpoints[j + 1];
            assert FirstNamed(tail, id, k - 1);
          }
        }
      }
    }
  }

  /** The node serves a protocol on the first positive port listed for it. */
  ghost predicate ServesOn(protocols: seq<Served>, protocol: string, port: int) {
    exists k: nat :: FirstServed(protocols, protocol, k) && protocols[k].port == port
  }

  ghost predicate FirstServed(protocols: seq<Served>, protocol: string, k: nat) {
    && k < |protocols| && protocols[k].protocol == protocol && protocols[k].port > 0
    && forall j :: 0 <= j < k ==> protocols[j].protocol != protocol || protocols[j].port <= 0
  }

  lemma {:induction false} PortFound(protocols: seq<Served>, protocol: string)
    ensures forall port :: ProtocolPort(protocols, protocol) == Some(port) <==> ServesOn(protocols, protocol, port)
    ensures ProtocolPort(protocols, protocol).None? <==>
      forall k :: 0 <= k < |protocols| ==> protocols[k].protocol != protocol || protocols[k].port <= 0
  {
    if protocols != [] {
      var head, tail := protocols[0], protocols[1..];
      PortFound(tail, protocol);
      if head.protocol == protocol && head.port > 0 {
        assert FirstServed(protocols, protocol, 0);
      } else {
        forall port ensures ServesOn(tail, protocol, port) <==> ServesOn(protocols, protocol, port) {
          if k: nat :| FirstServed(tail, protocol, k) && tail[k].port == port {
            assert FirstServed(protocols, protocol, k + 1);
          }
          if k: nat :| FirstServed(protocols, protocol, k) && protocols[k].port == port {
            assert forall j :: 0 <= j < k ==> tail[j] == protocols[j + 1];
            assert FirstServed(tail, protocol, k - 1);
          }
        }
      }
    }
  }

  // ------------------------------------------------------------ the link registry

  predicate Supported(f: Forward) {
    || (f.protocol in ["vless-reality-vision", "vless-reality-grpc", "anytls"] && f.network == "tcp")
    || (f.protocol in ["hysteria2", "tuic"] && f.network == "udp")
  }

  predicate SoundForwards(forwards: seq<Forward>) {
    && forwards != []
    && (forall i :: 0 <= i < |forwards| ==> Supported(forwards[i]) && 1 <= forwards[i].relayPort <= 65535)
    && (forall i, j :: 0 <= i < j < |forwards| ==>
          forwards[i].protocol != forwards[j].protocol && forwards[i].relayPort != forwards[j].relayPort)
  }

  predicate SoundLink(l: Link) {
    l.landing != "" && l.relay != "" && l.landing != l.relay && SoundForwards(l.forwards)
  }

  predicate PortsClash(a: Link, b: Link) {
    exists i, j :: 0 <= i < |a.forwards| && 0 <= j < |b.forwards| && a.forwards[i].relayPort == b.forwards[j].relayPort
  }

  /** One relay per landing node, no chains, and no port a relay answers on for two landing nodes. */
  predicate Compatible(a: Link, b: Link) {
    && a.landing != b.landing && a.relay != b.landing && a.landing != b.relay
    && (a.relay == b.relay ==> !PortsClash(a, b))
  }

  predicate SoundRegistry(links: seq<Link>) {
    && Normalized(links)
    && (forall i :: 0 <= i < |links| ==> SoundLink(links[i]))
    && (forall i, j :: 0 <= i < |links| && 0 <= j < |links| && i != j ==> Compatible(links[i], links[j]))
  }

  /** What can be relayed, over which network. */
  const RELAYED: set<(string, string)> := {
    ("vless-reality-vision", "tcp"), ("vless-reality-grpc", "tcp"), ("anytls", "tcp"), ("hysteria2", "udp"), ("tuic", "udp")}

  function RelayPorts(l: Link): set<int> {
    set i | 0 <= i < |l.forwards| :: l.forwards[i].relayPort
  }

  lemma SupportedMeans(f: Forward)
    ensures Supported(f) <==> (f.protocol, f.network) in RELAYED
  {
  }

  /** A link by itself: two different nodes, and at least one forward, each a known protocol over its network, no protocol and no port twice. */
  lemma SoundLinkMeans(l: Link)
    ensures SoundLink(l) <==>
      && l.landing != "" && l.relay != "" && l.landing != l.relay && |l.forwards| >= 1
      && (forall f :: f in l.forwards ==> (f.protocol, f.network) in RELAYED && 1 <= f.relayPort <= 65535)
      && (forall i, j :: 0 <= i < |l.forwards| && 0 <= j < |l.forwards| && i != j ==>
            l.forwards[i].protocol != l.forwards[j].protocol && l.forwards[i].relayPort != l.forwards[j].relayPort)
  {
    hide Supported;
    forall f: Forward ensures Supported(f) <==> (f.protocol, f.network) in RELAYED { SupportedMeans(f); }
    assert forall i :: 0 <= i < |l.forwards| ==> l.forwards[i] in l.forwards;
  }

  /** Two links together: three or four nodes, none fronted twice or both relay and landing node, and no port of one relay in both. */
  lemma CompatibleMeans(a: Link, b: Link)
    ensures Compatible(a, b) <==>
      && a.landing !in {b.landing, b.relay} && b.landing != a.relay
      && (a.relay != b.relay || RelayPorts(a) !! RelayPorts(b))
  {
    if RelayPorts(a) !! RelayPorts(b) {
      forall i, j | 0 <= i < |a.forwards| && 0 <= j < |b.forwards| ensures a.forwards[i].relayPort != b.forwards[j].relayPort {
        assert a.forwards[i].relayPort in RelayPorts(a) && b.forwards[j].relayPort in RelayPorts(b);
      }
    }
  }

  /** The registry holds IDs in normal form. */
  lemma StoredIDsAreNormal(links: seq<Link>, i: nat)
    requires SoundRegistry(links) && i < |links|
    ensures Key(links[i].landing) == links[i].landing != "" && Key(links[i].relay) == links[i].relay != ""
  {
    hide Key, SoundForwards;
  }

  method IndexOf(links: seq<Link>, landing: string) returns (at: Option<nat>)
    ensures at.Some? ==> at.value < |links| && links[at.value].landing == landing && landing != ""
    ensures at.None? ==> landing == "" || forall i :: 0 <= i < |links| ==> links[i].landing != landing
  {
    if landing == "" { return None; }
    for i := 0 to |links|
      invariant forall j :: 0 <= j < i ==> links[j].landing != landing
    {
      if links[i].landing == landing { return Some(i); }
    }
    return None;
  }

  /** validate, against every entry but the one being replaced. */
  method Validate(links: seq<Link>, link: Link, skip: Option<nat>) returns (ok: bool)
    ensures ok <==> SoundLink(link) && forall i :: 0 <= i < |links| && skip != Some(i) ==> Compatible(links[i], link)
  {
    if !SoundLink(link) { return false; }
    for i := 0 to |links|
      invariant forall j :: 0 <= j < i && skip != Some(j) ==> Compatible(links[j], link)
    {
      if skip == Some(i) { continue; }
      var existing := links[i];
      if existing.landing == link.landing { return false; }
      if existing.relay == link.landing { return false; }
      if existing.landing == link.relay { return false; }
      if existing.relay == link.relay && PortsClash(existing, link) { return false; }
    }
    return true;
  }

  /** Link.normalized. */
  function Stored(l: Link): Link {
    Link(Key(l.landing), Key(l.relay), l.forwards)
  }

  lemma StoredIsNormal(l: Link)
    ensures NormalLink(Stored(l))
  {
    hide Key;
    KeyIdempotent(l.landing);
    KeyIdempotent(l.relay);
  }

  /** The link is sound and gets along with every other landing node's. */
  predicate Fits(links: seq<Link>, link: Link) {
    SoundLink(link) && forall l :: l in links && l.landing != link.landing ==> Compatible(l, link)
  }

  ghost predicate Replaces(before: seq<Link>, link: Link, after: seq<Link>) {
    link in after && forall l :: l != link ==> (l in after <==> l in before && l.landing != link.landing)
  }

  /** A link fits whenever any registry with it in its landing node's place would be sound. */
  lemma FitsIfSound(links: seq<Link>, link: Link, after: seq<Link>)
    requires SoundRegistry(after) && Replaces(links, link, after)
    ensures Fits(links, link)
  {
    hide SoundLink, PortsClash, Normalized;
    var at :| 0 <= at < |after| && after[at] == link;
    forall l | l in links && l.landing != link.landing ensures Compatible(l, link) {
      assert l in after;
      var i :| 0 <= i < |after| && after[i] == l;
      assert Compatible(after[i], after[at]);
    }
    assert SoundLink(after[at]);
  }

  method Store(links: seq<Link>, link: Link) returns (ok: bool, after: seq<Link>)
    requires SoundRegistry(links) && NormalLink(link)
    ensures ok <==> Fits(links, link)
    ensures SoundRegistry(after)
    ensures if ok then Replaces(links, link, after) else after == links
  {
    hide SoundLink, Compatible, SoundRegistry, Normalized, NormalLink;
    var at := IndexOf(links, link.landing);
    ok := Validate(links, link, at);
    OthersMeanIndices(links, link, at);
    BlankIsUnsound(link);
    after := links;
    if ok {
      StoredContents(links, link, at);
      if at.None? {
        AppendSound(links, link);
        after := links + [link];
      } else {
        ReplaceSound(links, link, at.value);
        after := links[at.value := link];
      }
    }
  }

  class Registry {
    var links: seq<Link>

    ghost predicate Valid()
      reads this
    {
      SoundRegistry(links)
    }

    constructor ()
      ensures Valid() && links == []
    {
      links := [];
    }

    /** Set: the landing node's link is stored or replaced if it fits all the others, and only then. */
    method Set(wanted: Link) returns (ok: bool)
      requires Valid()
      modifies this
      ensures Valid()
      ensures ok <==> Fits(old(links), Stored(wanted))
      ensures !ok ==> links == old(links)
      ensures ok ==> Replaces(old(links), Stored(wanted), links)
    {
      hide SoundLink, Compatible, SoundRegistry, Key;
      StoredIsNormal(wanted);
      ok, links := Store(links, Stored(wanted));
    }

    /** Remove: idempotent, and everything else stays. */
    method Remove(landing: string)
      requires Valid()
      modifies this
      ensures Valid()
      ensures forall l :: l in links <==> l in old(links) && l.landing != Key(landing)
    {
      var found := IndexOf(links, Key(landing));
      if found.Some? {
        ghost var before := links;
        var at := found.value;
        links := links[..at] + links[at + 1..];
        RemoveSound(before, at);
      }
    }
  }

  lemma CompatibleSymmetric(a: Link, b: Link)
    requires Compatible(a, b)
    ensures Compatible(b, a)
  {
  }

  lemma OthersMeanIndices(links: seq<Link>, link: Link, at: Option<nat>)
    requires SoundRegistry(links)
    requires at.Some? ==> at.value < |links| && links[at.value].landing == link.landing
    requires at.None? ==> link.landing == "" || forall i :: 0 <= i < |links| ==> links[i].landing != link.landing
    ensures SoundLink(link) ==>
      ((forall i :: 0 <= i < |links| && at != Some(i) ==> Compatible(links[i], link))
       <==> forall l :: l in links && l.landing != link.landing ==> Compatible(l, link))
  {
    hide SoundLink, PortsClash, Normalized;
    forall i | 0 <= i < |links| && at.Some? && i != at.value ensures links[i].landing != link.landing {
      assert Compatible(links[i], links[at.value]);
    }
    if forall l :: l in links && l.landing != link.landing ==> Compatible(l, link) {
      forall i | 0 <= i < |links| && at != Some(i) ensures SoundLink(link) ==> Compatible(links[i], link) {
        assert links[i] in links;
        assert link.landing == "" ==> !SoundLink(link) by { BlankIsUnsound(link); }
      }
    }
  }

  lemma BlankIsUnsound(link: Link)
    ensures link.landing == "" ==> !SoundLink(link)
  {
  }

  lemma AppendSound(links: seq<Link>, link: Link)
    requires SoundRegistry(links) && SoundLink(link) && NormalLink(link)
    requires forall i :: 0 <= i < |links| ==> Compatible(links[i], link)
    ensures SoundRegistry(links + [link])
  {
    hide SoundLink, Compatible, NormalLink;
    forall i | 0 <= i < |links| ensures Compatible(link, links[i]) {
      CompatibleSymmetric(links[i], link);
    }
  }

  lemma ReplaceSound(links: seq<Link>, link: Link, at: nat)
    requires SoundRegistry(links) && SoundLink(link) && NormalLink(link) && at < |links|
    requires forall i :: 0 <= i < |links| && i != at ==> Compatible(links[i], link)
    ensures SoundRegistry(links[at := link])
  {
    hide SoundLink, Compatible, NormalLink;
    forall i | 0 <= i < |links| && i != at ensures Compatible(link, links[i]) {
      CompatibleSymmetric(links[i], link);
    }
  }

  lemma RemoveSound(links: seq<Link>, at: nat)
    requires SoundRegistry(links) && at < |links|
    ensures SoundRegistry(links[..at] + links[at + 1..])
    ensures forall l :: l in links[..at] + links[at + 1..] <==> l in links && l.landing != links[at].landing
  {
    hide SoundLink, Compatible, Key;
    var rest := links[..at] + links[at + 1..];
    assert forall i :: 0 <= i < |rest| ==> rest[i] == links[if i < at then i else i + 1];
    Contents(links, at);
  }

  lemma Contents(links: seq<Link>, at: nat)
    requires SoundRegistry(links) && at < |links|
    ensures forall l :: l in links[..at] + links[at + 1..] <==> l in links && l.landing != links[at].landing
    ensures forall l :: l in links && l.landing == links[at].landing ==> l == links[at]
  {
    hide SoundLink, PortsClash, Normalized;
    var rest := links[..at] + links[at + 1..];
    forall i | 0 <= i < |links| && i != at ensures links[i].landing != links[at].landing {
      assert Compatible(links[i], links[at]);
    }
    hide Compatible;
    forall l | l in links && l.landing != links[at].landing ensures l in rest {
      var i :| 0 <= i < |links| && links[i] == l;
      assert rest[if i < at then i else i - 1] == l;
    }
    forall l | l in rest ensures l in links && l.landing != links[at].landing {
      var i :| 0 <= i < |rest| && rest[i] == l;
      assert rest[i] == links[if i < at then i else i + 1];
    }
  }

  lemma UpdatedMembers(links: seq<Link>, at: nat, link: Link)
    requires at < |links|
    ensures link in links[at := link]
    ensures var after, rest := links[at := link], links[..at] + links[at + 1..];
      forall l :: l in after <==> l == link || l in rest
  {
    assert links[at := link][at] == link;
    assert links[at := link] == links[..at] + [link] + links[at + 1..];
  }

  /** What storing a link in the place of the landing node's old one, or at the end, does to the contents. */
  lemma StoredContents(links: seq<Link>, link: Link, at: Option<nat>)
    requires SoundRegistry(links)
    requires at.Some? ==> at.value < |links| && links[at.value].landing == link.landing
    requires at.None? ==> forall i :: 0 <= i < |links| ==> links[i].landing != link.landing
    ensures var after := if at.Some? then links[at.value := link] else links + [link];
      && link in after
      && forall l :: l != link ==> (l in after <==> l in links && l.landing != link.landing)
  {
    hide SoundLink, PortsClash, Normalized, Compatible;
    if at.Some? {
      Contents(links, at.value);
      UpdatedMembers(links, at.value, link);
    } else {
      hide SoundRegistry;
      assert (links + [link])[|links|] == link;
    }
  }

  // ------------------------------------------------------------ the ruleset

  datatype Rule = Rule(protocol: string, network: string, listenPort: int, targetPort: int)

  datatype Landing = Landing(node: string, name: string, host: string, address: string, rules: seq<Rule>)

  type Availability = string -> bool

  function RuleOf(landing: Endpoint, f: Forward): Option<Rule> {
    match ProtocolPort(landing.protocols, f.protocol)
    case None => None
    case Some(target) => Some(Rule(f.protocol, f.network, f.relayPort, target))
  }

  /** One rule per forward whose protocol the landing node still serves. */
  function RulesOf(landing: Endpoint, forwards: seq<Forward>): seq<Rule> {
    if forwards == [] then []
    else
      var rest, last := RulesOf(landing, forwards[..|forwards| - 1]), RuleOf(landing, forwards[|forwards| - 1]);
      if last.None? then rest else rest + [last.value]
  }

  lemma {:induction false} RulesMean(landing: Endpoint, forwards: seq<Forward>)
    ensures forall r :: r in RulesOf(landing, forwards) <==>
      exists i :: 0 <= i < |forwards| && RuleOf(landing, forwards[i]) == Some(r)
  {
    if forwards != [] {
      hide RuleOf;
      var shorter, last := forwards[..|forwards| - 1], forwards[|forwards| - 1];
      RulesMean(landing, shorter);
      forall r ensures r in RulesOf(landing, forwards) <==> exists i :: 0 <= i < |forwards| && RuleOf(landing, forwards[i]) == Some(r) {
        if i :| 0 <= i < |shorter| && RuleOf(landing, shorter[i]) == Some(r) {
          assert RuleOf(landing, forwards[i]) == Some(r);
        }
        if i :| 0 <= i < |forwards| && RuleOf(landing, forwards[i]) == Some(r) {
          assert i < |shorter| ==> RuleOf(landing, shorter[i]) == Some(r);
        }
        assert RuleOf(landing, last) == Some(r) ==> RuleOf(landing, forwards[|shorter|]) == Some(r);
      }
    }
  }

  lemma RuleMeans(landing: Endpoint, f: Forward)
    ensures forall port :: RuleOf(landing, f) == Some(Rule(f.protocol, f.network, f.relayPort, port)) <==> ServesOn(landing.protocols, f.protocol, port)
    ensures RuleOf(landing, f).None? <==> forall port :: !ServesOn(landing.protocols, f.protocol, port)
    ensures RuleOf(landing, f).Some? ==>
      RuleOf(landing, f).value == Rule(f.protocol, f.network, f.relayPort, RuleOf(landing, f).value.targetPort)
  {
    hide ServesOn;
    PortFound(landing.protocols, f.protocol);
    if ProtocolPort(landing.protocols, f.protocol).Some? {
      assert ServesOn(landing.protocols, f.protocol, ProtocolPort(landing.protocols, f.protocol).value);
    }
  }

  /** Forward by forward, in order: a rule to the port its protocol is served on, and none if it is not served. */
  ghost predicate RulesFrom(rules: seq<Rule>, protocols: seq<Served>, forwards: seq<Forward>) {
    if forwards == [] then rules == []
    else
      var earlier, f := forwards[..|forwards| - 1], forwards[|forwards| - 1];
      if forall port :: !ServesOn(protocols, f.protocol, port) then RulesFrom(rules, protocols, earlier)
      else
        && rules != [] && RulesFrom(rules[..|rules| - 1], protocols, earlier)
        && var last := rules[|rules| - 1];
        && last == Rule(f.protocol, f.network, f.relayPort, last.targetPort) && ServesOn(protocols, f.protocol, last.targetPort)
  }

  lemma {:induction false} RulesInOrder(landing: Endpoint, forwards: seq<Forward>)
    ensures RulesFrom(RulesOf(landing, forwards), landing.protocols, forwards)
  {
    if forwards != [] {
      hide RuleOf, ServesOn;
      var shorter, last := forwards[..|forwards| - 1], forwards[|forwards| - 1];
      RulesInOrder(landing, shorter);
      RuleMeans(landing, last);
      if RuleOf(landing, last).Some? {
        assert (RulesOf(landing, shorter) + [RuleOf(landing, last).value])[..|RulesOf(landing, shorter)|] == RulesOf(landing, shorter);
      }
    }
  }

  /** The entry a link contributes to its relay's ruleset, if it contributes one. */
  function EntryFor(link: Link, endpoints: seq<Endpoint>, available: Availability, resolve: string -> string): Option<Landing> {
    match EndpointByID(endpoints, link.landing)
    case None => None
    case Some(landing) =>
      var rules := RulesOf(landing, link.forwards);
      if !available(link.landing) || rules == [] then None
      else Some(Landing(link.landing, landing.name, landing.domain, resolve(landing.domain), rules))
  }

  /** A link RelayConfigFor refuses to build a ruleset over. */
  predicate Broken(link: Link, endpoints: seq<Endpoint>) {
    match EndpointByID(endpoints, link.landing)
    case None => true
    case Some(landing) => landing.domain == ""
  }

  /** Its landing node is in the fleet and has a domain to forward to. */
  ghost predicate Reachable(link: Link, endpoints: seq<Endpoint>) {
    exists e :: Named(endpoints, link.landing, e) && e.domain != ""
  }

  lemma BrokenMeans(link: Link, endpoints: seq<Endpoint>)
    ensures Broken(link, endpoints) <==> !Reachable(link, endpoints)
  {
    hide Named;
    EndpointFound(endpoints, link.landing);
    if EndpointByID(endpoints, link.landing).Some? {
      assert Named(endpoints, link.landing, EndpointByID(endpoints, link.landing).value);
    }
  }

  method ServedBy(links: seq<Link>, relay: string) returns (served: seq<Link>)
    ensures served == OwedLinks(links, relay)
  {
    hide Key;
    var id := Key(relay);
    served := [];
    if id == "" {
      NothingOwed(links, relay);
      return;
    }
    for i := 0 to |links|
      invariant served == OwedLinks(links[..i], relay)
    {
      assert links[..i + 1][..i] == links[..i];
      if links[i].relay == id { served := served + [links[i]]; }
    }
    assert links[..|links|] == links;
  }

  lemma {:induction false} NothingOwed(links: seq<Link>, relay: string)
    requires Key(relay) == ""
    ensures OwedLinks(links, relay) == []
  {
    hide Key;
    if links != [] {
      NothingOwed(links[..|links| - 1], relay);
    }
  }

  method ForwardRules(landing: Endpoint, forwards: seq<Forward>) returns (rules: seq<Rule>)
    ensures rules == RulesOf(landing, forwards)
  {
    rules := [];
    for i := 0 to |forwards|
      invariant rules == RulesOf(landing, forwards[..i])
    {
      assert forwards[..i + 1][..i] == forwards[..i];
      var target := ProtocolPort(landing.protocols, forwards[i].protocol);
      if target.None? { continue; }
      rules := rules + [Rule(forwards[i].protocol, forwards[i].network, forwards[i].relayPort, target.value)];
    }
    assert forwards[..|forwards|] == forwards;
  }

  /** One turn of RelayConfigFor's loop. */
  method EntryOf(link: Link, endpoints: seq<Endpoint>, available: Availability, resolve: string -> string)
    returns (broken: bool, entry: Option<Landing>)
    ensures broken <==> Broken(link, endpoints)
    ensures !broken ==> entry == EntryFor(link, endpoints, available, resolve)
  {
    var found := EndpointByID(endpoints, link.landing);
    if found.None? || found.value.domain == "" { return true, None; }
    var landing := found.value;
    if !available(link.landing) { return false, None; }
    var rules := ForwardRules(landing, link.forwards);
    if |rules| == 0 { return false, None; }
    return false, Some(Landing(link.landing, landing.name, landing.domain, resolve(landing.domain), rules));
  }

  /** The links a relay's ruleset is built over. */
  predicate Owed(l: Link, links: seq<Link>, relay: string) {
    l in links && l.relay == Key(relay) && l.relay != ""
  }

  /** The relay's links, in registry order. */
  function OwedLinks(links: seq<Link>, relay: string): seq<Link> {
    if links == [] then []
    else
      var earlier, last := OwedLinks(links[..|links| - 1], relay), links[|links| - 1];
      if last.relay == Key(relay) && last.relay != "" then earlier + [last] else earlier
  }

  /** Order and multiplicity: of a list in two parts first the one's links, then the other's; of a single link itself or none. */
  lemma {:induction false} OwedJoin(a: seq<Link>, b: seq<Link>, relay: string)
    ensures OwedLinks(a + b, relay) == OwedLinks(a, relay) + OwedLinks(b, relay)
    ensures forall l :: OwedLinks([l], relay) == if l.relay == Key(relay) && l.relay != "" then [l] else []
  {
    hide Key;
    forall l ensures OwedLinks([l], relay) == if l.relay == Key(relay) && l.relay != "" then [l] else [] {
      assert [l][..0] == [];
    }
    if b == [] {
      assert a + b == a;
    } else {
      assert (a + b)[..|a + b| - 1] == a + b[..|b| - 1];
      OwedJoin(a, b[..|b| - 1], relay);
    }
  }

  /** The entries of those links that contribute one, in the same order. */
  function Entries(owed: seq<Link>, endpoints: seq<Endpoint>, available: Availability, resolve: string -> string): seq<Landing> {
    if owed == [] then []
    else
      var earlier := Entries(owed[..|owed| - 1], endpoints, available, resolve);
      match EntryFor(owed[|owed| - 1], endpoints, available, resolve)
      case None => earlier
      case Some(entry) => earlier + [entry]
  }

  lemma {:induction false} OwedMeans(links: seq<Link>, relay: string)
    ensures forall l :: l in OwedLinks(links, relay) <==> Owed(l, links, relay)
  {
    hide Key;
    if links != [] {
      OwedMeans(links[..|links| - 1], relay);
      assert links == links[..|links| - 1] + [links[|links| - 1]];
    }
  }

  lemma {:induction false} EntriesMean(owed: seq<Link>, endpoints: seq<Endpoint>, available: Availability, resolve: string -> string)
    ensures forall l :: l in owed && EntryFor(l, endpoints, available, resolve).Some? ==>
      EntryFor(l, endpoints, available, resolve).value in Entries(owed, endpoints, available, resolve)
  {
    if owed != [] {
      hide EntryFor;
      EntriesMean(owed[..|owed| - 1], endpoints, available, resolve);
      assert owed == owed[..|owed| - 1] + [owed[|owed| - 1]];
    }
  }

  function OneOrNone(entry: Option<Landing>): seq<Landing> {
    if entry.Some? then [entry.value] else []
  }

  /** The same for the entries: a single link contributes its own or none. */
  lemma {:induction false} EntriesJoin(a: seq<Link>, b: seq<Link>, endpoints: seq<Endpoint>, available: Availability, resolve: string -> string)
    ensures Entries(a + b, endpoints, available, resolve) ==
      Entries(a, endpoints, available, resolve) + Entries(b, endpoints, available, resolve)
    ensures forall l :: Entries([l], endpoints, available, resolve) == OneOrNone(EntryFor(l, endpoints, available, resolve))
  {
    hide EntryFor;
    forall l ensures Entries([l], endpoints, available, resolve) == OneOrNone(EntryFor(l, endpoints, available, resolve)) {
      assert [l][..0] == [];
    }
    if b == [] {
      assert a + b == a;
    } else {
      assert (a + b)[..|a + b| - 1] == a + b[..|b| - 1];
      EntriesJoin(a, b[..|b| - 1], endpoints, available, resolve);
    }
  }

  /**
   RelayConfigFor: refused as soon as one of the relay's links is broken, even one it
   would leave out; otherwise the entries of the relay's links, each once, in registry order.
   */
  method RelayConfigFor(relay: string, links: seq<Link>, endpoints: seq<Endpoint>, available: Availability, resolve: string -> string)
    returns (config: Option<seq<Landing>>)
    ensures config.None? <==> exists l :: l in OwedLinks(links, relay) && !Reachable(l, endpoints)
    ensures config.Some? ==> config.value == Entries(OwedLinks(links, relay), endpoints, available, resolve)
  {
    hide Broken, EntryFor, Key, OwedLinks, Reachable;
    forall l ensures Broken(l, endpoints) <==> !Reachable(l, endpoints) { BrokenMeans(l, endpoints); }
    var served := ServedBy(links, relay);
    var landings: seq<Landing> := [];
    for i := 0 to |served|
      invariant forall j :: 0 <= j < i ==> !Broken(served[j], endpoints)
      invariant landings == Entries(served[..i], endpoints, available, resolve)
    {
      var link := served[i];
      assert link in served && served[..i + 1][..i] == served[..i];
      var broken, entry := EntryOf(link, endpoints, available, resolve);
      if broken { return None; }
      if entry.Some? {
        landings := landings + [entry.value];
      }
    }
    assert served[..|served|] == served;
    config := Some(landings);
  }

  // ------------------------------------------------------------ the topology

  datatype TopologyLink = TopologyLink(relay: string, landing: string, name: string, forwarding: bool, reason: string)

  function MonitorSourceID(node: string): string {
    var id := Trim(node);
    if Lower(id) == HUB then "local" else id
  }

  /** A stored ID of any node but the hub is its own name on the dashboard. */
  lemma SourceNames(id: string)
    requires Key(id) == id
    ensures MonitorSourceID(id) == if id == HUB then "local" else id
  {
    KeyIdempotent(id);
    LowerIdempotent(Trim(id));
    hide Trim;
    assert Trim(id) == id && Lower(id) == id;
  }

  lemma {:induction false} RulesEmpty(landing: Endpoint, forwards: seq<Forward>)
    ensures RulesOf(landing, forwards) == [] <==> forall i :: 0 <= i < |forwards| ==> RuleOf(landing, forwards[i]).None?
  {
    if forwards != [] {
      hide RuleOf;
      RulesEmpty(landing, forwards[..|forwards| - 1]);
      assert forwards == forwards[..|forwards| - 1] + [forwards[|forwards| - 1]];
    }
  }

  method ServesAny(landing: Endpoint, forwards: seq<Forward>) returns (any: bool)
    ensures any <==> RulesOf(landing, forwards) != []
  {
    RulesEmpty(landing, forwards);
    for i := 0 to |forwards|
      invariant forall j :: 0 <= j < i ==> RuleOf(landing, forwards[j]).None?
    {
      if ProtocolPort(landing.protocols, forwards[i].protocol).Some? { return true; }
    }
    return false;
  }

  /** Whether the topology says a link is forwarding right now. */
  predicate Forwards(link: Link, endpoints: seq<Endpoint>, available: Availability) {
    match EndpointByID(endpoints, link.landing)
    case None => endpoints == []
    case Some(landing) =>
      && available(link.landing) && available(link.relay)
      && Trim(landing.domain) != "" && RulesOf(landing, link.forwards) != []
  }

  /** The landing node serves some protocol of the link. */
  ghost predicate ServesSome(e: Endpoint, forwards: seq<Forward>) {
    exists i, port :: 0 <= i < |forwards| && ServesOn(e.protocols, forwards[i].protocol, port)
  }

  lemma ServesSomeMeans(e: Endpoint, forwards: seq<Forward>)
    ensures RulesOf(e, forwards) != [] <==> ServesSome(e, forwards)
  {
    hide ServesOn, RuleOf, RulesOf;
    RulesEmpty(e, forwards);
    forall i | 0 <= i < |forwards| ensures RuleOf(e, forwards[i]).None? <==> forall port :: !ServesOn(e.protocols, forwards[i].protocol, port) {
      RuleMeans(e, forwards[i]);
    }
  }

  /** The link's landing node is known, has an address and serves one of its protocols, and neither end is out of quota. */
  ghost predicate Stands(link: Link, endpoints: seq<Endpoint>, available: Availability) {
    && available(link.landing) && available(link.relay)
    && exists e :: Named(endpoints, link.landing, e) && Trim(e.domain) != "" && ServesSome(e, link.forwards)
  }

  lemma ForwardsMeans(link: Link, endpoints: seq<Endpoint>, available: Availability)
    ensures Forwards(link, endpoints, available) <==> endpoints == [] || Stands(link, endpoints, available)
  {
    hide Named, ServesSome, Trim, RulesOf;
    EndpointFound(endpoints, link.landing);
    match EndpointByID(endpoints, link.landing)
    case Some(e) =>
      ServesSomeMeans(e, link.forwards);
      assert Named(endpoints, link.landing, e);
    case None =>
  }

  /** A reason is only given when it is true. */
  ghost predicate Explains(reason: string, link: Link, endpoints: seq<Endpoint>, available: Availability) {
    || (reason == "landing node is no longer in the fleet" && forall e :: !Named(endpoints, link.landing, e))
    || (reason == "landing node is out of quota" && !available(link.landing))
    || (reason == "relay is out of quota" && !available(link.relay))
    || (reason == "landing node has no address to forward to" && exists e :: Named(endpoints, link.landing, e) && Trim(e.domain) == "")
    || (reason == "landing node serves none of the forwarded protocols"
        && exists e :: Named(endpoints, link.landing, e) && !ServesSome(e, link.forwards))
  }

  ghost predicate Shows(entry: TopologyLink, link: Link, endpoints: seq<Endpoint>, available: Availability) {
    && entry.relay == MonitorSourceID(link.relay) && entry.landing == link.landing
    && (forall e :: Named(endpoints, link.landing, e) ==> entry.name == e.name)
    && ((forall e :: !Named(endpoints, link.landing, e)) ==> entry.name == "")
    && (entry.forwarding <==> endpoints == [] || Stands(link, endpoints, available))
    && (if entry.forwarding then entry.reason == "" else Explains(entry.reason, link, endpoints, available))
  }

  method Reason(link: Link, endpoints: seq<Endpoint>, available: Availability) returns (name: string, reason: string)
    requires endpoints != []
    ensures reason == "" <==> Forwards(link, endpoints, available)
    ensures reason == "" || Explains(reason, link, endpoints, available)
    ensures name == match EndpointByID(endpoints, link.landing) case Some(e) => e.name case None => ""
  {
    hide Named, ServesSome, Trim, RulesOf, FirstNamed;
    EndpointFound(endpoints, link.landing);
    var found := EndpointByID(endpoints, link.landing);
    if found.None? { return "", "landing node is no longer in the fleet"; }
    var landing := found.value;
    name := landing.name;
    if !available(link.landing) { return name, "landing node is out of quota"; }
    if !available(link.relay) { return name, "relay is out of quota"; }
    if Trim(landing.domain) == "" { return name, "landing node has no address to forward to"; }
    ServesSomeMeans(landing, link.forwards);
    assert Named(endpoints, link.landing, landing);
    var any := ServesAny(landing, link.forwards);
    if !any { return name, "landing node serves none of the forwarded protocols"; }
    return name, "";
  }

  method TopologyEntry(link: Link, endpoints: seq<Endpoint>, available: Availability) returns (entry: TopologyLink)
    ensures Shows(entry, link, endpoints, available)
  {
    hide RulesOf, Trim, Named, Stands, Explains, Forwards;
    EndpointFound(endpoints, link.landing);
    ForwardsMeans(link, endpoints, available);
    if |endpoints| == 0 {
      return TopologyLink(MonitorSourceID(link.relay), link.landing, "", true, "");
    }
    var name, reason := Reason(link, endpoints, available);
    return TopologyLink(MonitorSourceID(link.relay), link.landing, name, reason == "", reason);
  }

  /** RelayTopology: one entry per link, in registry order. */
  method RelayTopology(links: seq<Link>, endpoints: seq<Endpoint>, available: Availability) returns (topology: seq<TopologyLink>)
    ensures |topology| == |links|
    ensures forall i :: 0 <= i < |links| ==> Shows(topology[i], links[i], endpoints, available)
  {
    hide Shows;
    topology := [];
    for i := 0 to |links|
      invariant |topology| == i
      invariant forall j :: 0 <= j < i ==> Shows(topology[j], links[j], endpoints, available)
    {
      var entry := TopologyEntry(links[i], endpoints, available);
      topology := topology + [entry];
    }
  }

  // ------------------------------------------------------------ the published rewrites

  datatype Rewrite = Rewrite(host: string, to: string, ports: map<int, int>)

  predicate ValidRewrite(r: Rewrite) {
    Trim(r.host) != "" && Trim(r.to) != "" && |r.ports| > 0
  }

  /** ports[target] = relay port, later forwards overwriting earlier ones on the same target. */
  function PortsOf(landing: Endpoint, forwards: seq<Forward>): map<int, int> {
    if forwards == [] then map[]
    else
      var earlier, last := PortsOf(landing, forwards[..|forwards| - 1]), RuleOf(landing, forwards[|forwards| - 1]);
      if last.None? then earlier else earlier[last.value.targetPort := last.value.listenPort]
  }

  /** What RelayRewrites publishes for a link, if anything. */
  function RewriteOf(link: Link, endpoints: seq<Endpoint>, available: Availability): Option<Rewrite> {
    match (EndpointByID(endpoints, link.landing), EndpointByID(endpoints, link.relay))
    case (Some(landing), Some(relay)) =>
      if !relay.installed || relay.domain == "" || !available(link.relay) || !available(link.landing) then None
      else
        var r := Rewrite(landing.domain, relay.domain, PortsOf(landing, link.forwards));
        if ValidRewrite(r) then Some(r) else None
    case _ => None
  }

  method PortsFor(landing: Endpoint, forwards: seq<Forward>) returns (ports: map<int, int>)
    ensures ports == PortsOf(landing, forwards)
  {
    ports := map[];
    for i := 0 to |forwards|
      invariant ports == PortsOf(landing, forwards[..i])
    {
      assert forwards[..i + 1][..i] == forwards[..i];
      var target := ProtocolPort(landing.protocols, forwards[i].protocol);
      if target.Some? { ports := ports[target.value := forwards[i].relayPort]; }
    }
    assert forwards[..|forwards|] == forwards;
  }

  /** One turn of RelayRewrites' loop. */
  method RewriteFor(link: Link, endpoints: seq<Endpoint>, available: Availability) returns (r: Option<Rewrite>)
    ensures r == RewriteOf(link, endpoints, available)
  {
    hide Trim;
    var landing := EndpointByID(endpoints, link.landing);
    if landing.None? { return None; }
    var relay := EndpointByID(endpoints, link.relay);
    if relay.None? || !relay.value.installed || relay.value.domain == "" { return None; }
    if !available(link.relay) || !available(link.landing) { return None; }
    var ports := PortsFor(landing.value, link.forwards);
    var rewrite := Rewrite(landing.value.domain, relay.value.domain, ports);
    return if ValidRewrite(rewrite) then Some(rewrite) else None;
  }

  /** The rewrites of a list of links: of two links that name one landing node the later one that publishes counts. */
  function Rewrites(links: seq<Link>, endpoints: seq<Endpoint>, available: Availability): map<string, Rewrite> {
    if links == [] then map[]
    else
      var earlier, last := Rewrites(links[..|links| - 1], endpoints, available), links[|links| - 1];
      match RewriteOf(last, endpoints, available)
      case None => earlier
      case Some(rewrite) => earlier[last.landing := rewrite]
  }

  /** RelayRewrites, for any list of links. */
  method RelayRewrites(links: seq<Link>, endpoints: seq<Endpoint>, available: Availability) returns (rewrites: map<string, Rewrite>)
    ensures rewrites == Rewrites(links, endpoints, available)
  {
    hide RewriteOf;
    rewrites := map[];
    for n := 0 to |links|
      invariant rewrites == Rewrites(links[..n], endpoints, available)
    {
      assert links[..n + 1][..n] == links[..n];
      var rewrite := RewriteFor(links[n], endpoints, available);
      if rewrite.Some? {
        rewrites := rewrites[links[n].landing := rewrite.value];
      }
    }
    assert links[..|links|] == links;
  }

  ghost predicate DistinctLandings(links: seq<Link>) {
    forall i, j :: 0 <= i < j < |links| ==> links[i].landing != links[j].landing
  }

  /** The map holds a link's rewrite under its landing node, and nothing there if it has none. */
  ghost predicate Holds(rewrites: map<string, Rewrite>, landing: string, r: Option<Rewrite>) {
    if r.None? then landing !in rewrites else landing in rewrites && rewrites[landing] == r.value
  }

  predicate Names(links: seq<Link>, landing: string) {
    exists i :: 0 <= i < |links| && links[i].landing == landing
  }

  lemma {:induction false} RewritesAreNamed(links: seq<Link>, endpoints: seq<Endpoint>, available: Availability)
    ensures forall id :: id in Rewrites(links, endpoints, available) ==> Names(links, id)
  {
    if links != [] {
      hide RewriteOf;
      var shorter := links[..|links| - 1];
      RewritesAreNamed(shorter, endpoints, available);
      forall id | Names(shorter, id) ensures Names(links, id) {
        var i :| 0 <= i < |shorter| && shorter[i].landing == id;
        assert links[i].landing == id;
      }
      assert Names(links, links[|links| - 1].landing);
    }
  }

  lemma {:induction false} RewriteHolds(links: seq<Link>, endpoints: seq<Endpoint>, available: Availability, at: nat)
    requires DistinctLandings(links) && at < |links|
    ensures Holds(Rewrites(links, endpoints, available), links[at].landing, RewriteOf(links[at], endpoints, available))
  {
    hide RewriteOf;
    var shorter := links[..|links| - 1];
    if at < |shorter| {
      RewriteHolds(shorter, endpoints, available, at);
    } else {
      RewritesAreNamed(shorter, endpoints, available);
      assert !Names(shorter, links[at].landing);
    }
  }

  /** In a sound registry each landing node gets exactly its own link's rewrite, and no other node gets any. */
  lemma SoundRegistryPublishes(links: seq<Link>, endpoints: seq<Endpoint>, available: Availability)
    requires SoundRegistry(links)
    ensures forall i :: 0 <= i < |links| ==>
      Holds(Rewrites(links, endpoints, available), links[i].landing, RewriteOf(links[i], endpoints, available))
    ensures forall id :: id in Rewrites(links, endpoints, available) ==> Names(links, id)
  {
    SoundMeansDistinct(links);
    hide SoundRegistry, DistinctLandings, Rewrites, RewriteOf, Holds;
    RewritesAreNamed(links, endpoints, available);
    forall i | 0 <= i < |links|
      ensures Holds(Rewrites(links, endpoints, available), links[i].landing, RewriteOf(links[i], endpoints, available))
    {
      RewriteHolds(links, endpoints, available, i);
    }
  }

  // ------------------------------------------------------------ the views agree

  lemma {:induction false} PortsComeFromRules(landing: Endpoint, forwards: seq<Forward>)
    ensures forall t :: t in PortsOf(landing, forwards) ==>
      exists r :: r in RulesOf(landing, forwards) && r.targetPort == t && r.listenPort == PortsOf(landing, forwards)[t]
    ensures RulesOf(landing, forwards) != [] <==> PortsOf(landing, forwards) != map[]
    ensures forall r :: r in RulesOf(landing, forwards) ==> r.targetPort in PortsOf(landing, forwards)
  {
    if forwards != [] {
      hide RuleOf;
      PortsComeFromRules(landing, forwards[..|forwards| - 1]);
      var last := RuleOf(landing, forwards[|forwards| - 1]);
      if last.Some? {
        assert last.value in RulesOf(landing, forwards);
        assert last.value.targetPort in PortsOf(landing, forwards);
      }
    }
  }

  /**
   A link the topology calls forwarding has its entry in its relay's ruleset, rules and
   all, whenever there is one; over an empty fleet there is none.
   */
  lemma ForwardingIsInRuleset(link: Link, links: seq<Link>, endpoints: seq<Endpoint>, available: Availability,
                              resolve: string -> string)
    requires link in links && NormalLink(link) && link.relay != ""
    requires Forwards(link, endpoints, available)
    ensures (exists l :: l in OwedLinks(links, link.relay) && Broken(l, endpoints)) ||
      (var entry := EntryFor(link, endpoints, available, resolve);
       entry.Some? && entry.value in Entries(OwedLinks(links, link.relay), endpoints, available, resolve))
    ensures endpoints == [] ==> exists l :: l in OwedLinks(links, link.relay) && Broken(l, endpoints)
  {
    OwedMeans(links, link.relay);
    assert Owed(link, links, link.relay);
    EntriesMean(OwedLinks(links, link.relay), endpoints, available, resolve);
    hide OwedLinks, Entries, RulesOf, Key, Trim;
    assert link in OwedLinks(links, link.relay);
    if !Broken(link, endpoints) {
      assert EntryFor(link, endpoints, available, resolve).Some?;
    }
  }

  /**
   A link's ruleset entry, exactly: there is one if its landing node is in the fleet, is
   within quota and serves one of its protocols; it names that node and its domain, and
   its rules lead, forward by forward, to the ports the protocols are served on.
   */
  lemma EntrySays(link: Link, endpoints: seq<Endpoint>, available: Availability, resolve: string -> string)
    ensures EntryFor(link, endpoints, available, resolve).Some? <==>
      available(link.landing) && exists e :: Named(endpoints, link.landing, e) && ServesSome(e, link.forwards)
    ensures forall e :: Named(endpoints, link.landing, e) && EntryFor(link, endpoints, available, resolve).Some? ==>
      var entry := EntryFor(link, endpoints, available, resolve).value;
      && entry.node == link.landing && entry.name == e.name && entry.host == e.domain && entry.address == resolve(e.domain)
      && RulesFrom(entry.rules, e.protocols, link.forwards)
  {
    hide Named, ServesSome, RulesFrom, RulesOf;
    EndpointFound(endpoints, link.landing);
    match EndpointByID(endpoints, link.landing)
    case Some(e) =>
      ServesSomeMeans(e, link.forwards);
      RulesInOrder(e, link.forwards);
      assert Named(endpoints, link.landing, e);
    case None =>
  }

  /** The ports published for a landing node: each number it serves one of the protocols on, with the relay port of the last such forward. */
  ghost predicate PortsFrom(ports: map<int, int>, protocols: seq<Served>, forwards: seq<Forward>) {
    && (forall t :: t in ports <==> exists i :: 0 <= i < |forwards| && ServesOn(protocols, forwards[i].protocol, t))
    && (forall t :: t in ports ==> exists i :: LastServed(protocols, forwards, t, i) && ports[t] == forwards[i].relayPort)
  }

  ghost predicate LastServed(protocols: seq<Served>, forwards: seq<Forward>, t: int, i: int) {
    && 0 <= i < |forwards| && ServesOn(protocols, forwards[i].protocol, t)
    && forall k :: i < k < |forwards| ==> !ServesOn(protocols, forwards[k].protocol, t)
  }

  lemma {:induction false} PortsMean(landing: Endpoint, forwards: seq<Forward>)
    ensures PortsFrom(PortsOf(landing, forwards), landing.protocols, forwards)
  {
    if forwards != [] {
      var shorter, last := forwards[..|forwards| - 1], forwards[|forwards| - 1];
      PortsMean(landing, shorter);
      RuleMeans(landing, last);
      hide RuleOf, ServesOn, PortsFrom;
      PortsGrow(PortsOf(landing, shorter), landing.protocols, shorter, last,
                if RuleOf(landing, last).Some? then Some(RuleOf(landing, last).value.targetPort) else None);
      assert forwards == shorter + [last];
    }
  }

  lemma PortsGrow(ports: map<int, int>, protocols: seq<Served>, forwards: seq<Forward>, last: Forward, target: Option<int>)
    requires PortsFrom(ports, protocols, forwards)
    requires forall port :: target == Some(port) <==> ServesOn(protocols, last.protocol, port)
    ensures PortsFrom(if target.None? then ports else ports[target.value := last.relayPort], protocols, forwards + [last])
  {
    hide ServesOn;
    var more, after := forwards + [last], if target.None? then ports else ports[target.value := last.relayPort];
    forall t ensures t in after <==> exists i :: 0 <= i < |more| && ServesOn(protocols, more[i].protocol, t) {
      if t in ports {
        var i :| 0 <= i < |forwards| && ServesOn(protocols, forwards[i].protocol, t);
        assert ServesOn(protocols, more[i].protocol, t);
      }
      assert target == Some(t) ==> ServesOn(protocols, more[|forwards|].protocol, t);
      if i :| 0 <= i < |more| && ServesOn(protocols, more[i].protocol, t) {
        assert i < |forwards| ==> ServesOn(protocols, forwards[i].protocol, t);
      }
    }
    forall t | t in after ensures exists i :: LastServed(protocols, more, t, i) && after[t] == more[i].relayPort {
      LastGrows(ports, protocols, forwards, last, t, target);
    }
  }

  lemma LastGrows(ports: map<int, int>, protocols: seq<Served>, forwards: seq<Forward>, last: Forward, t: int, target: Option<int>)
    requires target == Some(t) <==> ServesOn(protocols, last.protocol, t)
    requires target != Some(t) ==> t in ports && exists i :: LastServed(protocols, forwards, t, i) && ports[t] == forwards[i].relayPort
    ensures var more, port := forwards + [last], if target == Some(t) then last.relayPort else ports[t];
      exists i :: LastServed(protocols, more, t, i) && more[i].relayPort == port
  {
    hide ServesOn;
    var more := forwards + [last];
    if target == Some(t) {
      assert LastServed(protocols, more, t, |forwards|);
    } else {
      var i :| LastServed(protocols, forwards, t, i) && ports[t] == forwards[i].relayPort;
      assert forall k :: 0 <= k < |forwards| ==> more[k] == forwards[k];
      assert LastServed(protocols, more, t, i);
    }
  }

  /**
   What is published for a link, exactly: something if the link stands and its relay is
   known, installed and named; then the landing node's domain is rewritten to the
   relay's, port by port.
   */
  lemma RewriteSays(link: Link, endpoints: seq<Endpoint>, available: Availability)
    ensures RewriteOf(link, endpoints, available).Some? <==>
      && Stands(link, endpoints, available)
      && exists relay :: Named(endpoints, link.relay, relay) && relay.installed && Trim(relay.domain) != ""
    ensures RewriteOf(link, endpoints, available).Some? ==>
      var r := RewriteOf(link, endpoints, available).value;
      && (forall e :: Named(endpoints, link.landing, e) ==> r.host == e.domain && PortsFrom(r.ports, e.protocols, link.forwards))
      && (forall relay :: Named(endpoints, link.relay, relay) ==> r.to == relay.domain)
  {
    hide Named, Stands, PortsFrom, Trim, RulesOf, PortsOf;
    PublishedMeansForwarding(link, endpoints, available);
    ForwardsMeans(link, endpoints, available);
    EndpointFound(endpoints, link.landing);
    EndpointFound(endpoints, link.relay);
    if EndpointByID(endpoints, link.relay).Some? {
      assert Named(endpoints, link.relay, EndpointByID(endpoints, link.relay).value);
    }
    if EndpointByID(endpoints, link.landing).Some? {
      PortsMean(EndpointByID(endpoints, link.landing).value, link.forwards);
    }
  }

  /** What a link's ruleset entry says: the landing node it names, where it sends, and a rule per forward still served. */
  lemma EntryMeans(link: Link, endpoints: seq<Endpoint>, available: Availability, resolve: string -> string)
    requires EntryFor(link, endpoints, available, resolve).Some?
    ensures var entry := EntryFor(link, endpoints, available, resolve).value;
      && EndpointByID(endpoints, link.landing).Some?
      && available(link.landing)
      && var landing := EndpointByID(endpoints, link.landing).value;
      && entry.node == link.landing && entry.host == landing.domain && entry.rules != []
      && forall r :: r in entry.rules <==> exists i :: 0 <= i < |link.forwards| && RuleOf(landing, link.forwards[i]) == Some(r)
  {
    hide RuleOf;
    RulesMean(EndpointByID(endpoints, link.landing).value, link.forwards);
  }

  /** A published link is one the topology calls forwarding; a forwarding link is published unless its relay is unknown, not installed or nameless. */
  lemma PublishedMeansForwarding(link: Link, endpoints: seq<Endpoint>, available: Availability)
    ensures RewriteOf(link, endpoints, available).Some? <==>
      && Forwards(link, endpoints, available)
      && EndpointByID(endpoints, link.relay).Some?
      && EndpointByID(endpoints, link.relay).value.installed
      && Trim(EndpointByID(endpoints, link.relay).value.domain) != ""
  {
    hide RulesOf, PortsOf;
    match EndpointByID(endpoints, link.landing)
    case None =>
      assert endpoints == [] ==> EndpointByID(endpoints, link.relay).None?;
    case Some(landing) =>
      PortsComeFromRules(landing, link.forwards);
  }

  /** Every published pair is one of that landing node's rules: its clients reach a port the relay really forwards from. */
  lemma PublishedPortsAreRules(link: Link, endpoints: seq<Endpoint>, available: Availability, resolve: string -> string, target: int)
    requires RewriteOf(link, endpoints, available).Some? && target in RewriteOf(link, endpoints, available).value.ports
    ensures var entry := EntryFor(link, endpoints, available, resolve);
      var listen := RewriteOf(link, endpoints, available).value.ports[target];
      entry.Some? && exists r :: r in entry.value.rules && r.targetPort == target && r.listenPort == listen
  {
    hide RulesOf, PortsOf, Trim;
    PortsComeFromRules(EndpointByID(endpoints, link.landing).value, link.forwards);
  }

  /** No later forward of the link leads to the same target port. */
  ghost predicate LastOnTarget(landing: Endpoint, forwards: seq<Forward>, i: nat)
    requires i < |forwards| && RuleOf(landing, forwards[i]).Some?
  {
    forall k :: i < k < |forwards| && RuleOf(landing, forwards[k]).Some? ==>
      RuleOf(landing, forwards[k]).value.targetPort != RuleOf(landing, forwards[i]).value.targetPort
  }

  /** The relay port a protocol's clients are sent to is its own exactly when no later protocol shares its target port number. */
  lemma {:induction false} OwnPortPublished(landing: Endpoint, forwards: seq<Forward>, i: nat)
    requires i < |forwards| && RuleOf(landing, forwards[i]).Some?
    requires forall j, k :: 0 <= j < k < |forwards| ==> forwards[j].relayPort != forwards[k].relayPort
    ensures var r := RuleOf(landing, forwards[i]).value;
      && r.targetPort in PortsOf(landing, forwards)
      && (PortsOf(landing, forwards)[r.targetPort] == r.listenPort <==> LastOnTarget(landing, forwards, i))
      && (PortsOf(landing, forwards)[r.targetPort] == r.listenPort || exists j :: i < j < |forwards| && forwards[j].relayPort == PortsOf(landing, forwards)[r.targetPort])
  {
    var shorter, last := forwards[..|forwards| - 1], |forwards| - 1;
    assert forall k :: 0 <= k < last ==> shorter[k] == forwards[k];
    if i < last {
      OwnPortPublished(landing, shorter, i);
      assert LastOnTarget(landing, forwards, i) ==> LastOnTarget(landing, shorter, i);
      if LastOnTarget(landing, shorter, i) && !LastOnTarget(landing, forwards, i) {
        assert RuleOf(landing, forwards[last]).Some?;
      }
    }
  }

  /** The landing node serves no two of the link's protocols on one port number. */
  ghost predicate DistinctTargets(landing: Endpoint, forwards: seq<Forward>) {
    forall j, k :: 0 <= j < k < |forwards| && RuleOf(landing, forwards[j]).Some? && RuleOf(landing, forwards[k]).Some? ==>
      RuleOf(landing, forwards[j]).value.targetPort != RuleOf(landing, forwards[k]).value.targetPort
  }

  /** With the distinct numbers a valid configuration has, every forward still served is published with its own relay port. */
  lemma {:induction false} DistinctTargetsPublish(landing: Endpoint, forwards: seq<Forward>)
    requires DistinctTargets(landing, forwards)
    ensures forall i :: 0 <= i < |forwards| && RuleOf(landing, forwards[i]).Some? ==>
      var r := RuleOf(landing, forwards[i]).value;
      r.targetPort in PortsOf(landing, forwards) && PortsOf(landing, forwards)[r.targetPort] == r.listenPort
  {
    if forwards != [] {
      hide RuleOf;
      var shorter := forwards[..|forwards| - 1];
      assert forall i :: 0 <= i < |shorter| ==> shorter[i] == forwards[i];
      DistinctTargetsPublish(landing, shorter);
    }
  }

  /** Why the numbers have to be distinct: of two protocols on one number only the second one's relay port is published. */
  lemma SharedTargetMisleads()
    ensures var landing := Endpoint("a", "a", "a.example", true, [Served("hysteria2", 8443), Served("anytls", 8443)]);
      var forwards := [Forward("hysteria2", "udp", 20001), Forward("anytls", "tcp", 20002)];
      SoundForwards(forwards) && PortsOf(landing, forwards) == map[8443 := 20002]
  {
    var forwards := [Forward("hysteria2", "udp", 20001), Forward("anytls", "tcp", 20002)];
    assert forwards[..1] == [forwards[0]] && forwards[..1][..0] == [];
    assert forwards[0].protocol[0] == 'h' && forwards[1].protocol[0] == 'a';
  }

  /** In a sound registry every landing node has one link. */
  lemma SoundMeansDistinct(links: seq<Link>)
    requires SoundRegistry(links)
    ensures DistinctLandings(links)
  {
    hide SoundLink, Normalized, PortsClash;
    forall i, j | 0 <= i < j < |links| ensures links[i].landing != links[j].landing {
      assert Compatible(links[i], links[j]);
    }
  }

  /** A port a relay answers on leads to one landing node. */
  lemma PortsLeadToOneLanding(links: seq<Link>, a: Link, b: Link, i: nat, j: nat)
    requires SoundRegistry(links) && a in links && b in links && a.relay == b.relay
    requires i < |a.forwards| && j < |b.forwards| && a.forwards[i].relayPort == b.forwards[j].relayPort
    ensures a.landing == b.landing
  {
    hide SoundLink, Normalized;
    assert PortsClash(a, b);
    assert !Compatible(a, b);
    var m, n :| 0 <= m < |links| && 0 <= n < |links| && links[m] == a && links[n] == b;
    assert m == n;
  }

  /** Nobody is two hops away: a landing node is never a relay. */
  lemma OneHop(links: seq<Link>, a: Link, b: Link)
    requires SoundRegistry(links) && a in links && b in links
    ensures a.relay != b.landing
  {
    hide SoundForwards, Normalized;
    var m, n :| 0 <= m < |links| && 0 <= n < |links| && links[m] == a && links[n] == b;
    if m != n {
      assert Compatible(a, b);
    } else {
      assert SoundLink(a);
    }
  }
}
