/**
 Reconfiguring an installed node (internal/deploy/orchestrator.go) and the firewall
 commands it issues (internal/system/firewall.go). Commands run one by one; each may
 fail without effect or take effect and still report failure.
 */
module Reconfigure {
  import opened Text
  import IpKey

  // ------------------------------------------------------------ the ports of a configuration

  datatype Port = Port(number: int, proto: string)

  datatype Protocol = RealityVision | RealityGRPC | Hysteria2 | TUIC | AnyTLS

  datatype Firewall = UFW | Firewalld | NoFirewall

  datatype Config = Config(
    enabled: seq<Protocol>, protocolPort: Protocol -> int, spoke: bool, firewall: Firewall,
    subscribePort: int, deployMonitor: bool, monitorPort: int, wgListenPort: int)

  const ALL_PROTOCOLS: seq<Protocol> := [RealityVision, RealityGRPC, Hysteria2, TUIC, AnyTLS]

  function Transport(p: Protocol): string {
    if p == Hysteria2 || p == TUIC then "udp" else "tcp"
  }

  /** Config.firewallPorts. */
  function FirewallPorts(c: Config): seq<Port> {
    var protocols := if c.enabled == [] then ALL_PROTOCOLS else c.enabled;
    seq(|protocols|, i requires 0 <= i < |protocols| => Port(c.protocolPort(protocols[i]), Transport(protocols[i])))
    + (if c.spoke then []
       else [Port(c.subscribePort, "tcp")] + if c.deployMonitor then [Port(c.monitorPort, "tcp")] else [])
    + [Port(80, "tcp"), Port(443, "tcp")]
    + if c.wgListenPort > 0 then [Port(c.wgListenPort, "udp")] else []
  }

  predicate Enabled(c: Config, p: Protocol) {
    c.enabled == [] || p in c.enabled
  }

  predicate OverUDP(p: Protocol) {
    p in {Hysteria2, TUIC}
  }

  /** The public ports of a configuration: its protocols', the hub's own, the web server's and the overlay's. */
  lemma FirewallPortsMean(c: Config, p: Port)
    ensures p in FirewallPorts(c) <==>
      || (exists e: Protocol :: Enabled(c, e) && p == Port(c.protocolPort(e), if OverUDP(e) then "udp" else "tcp"))
      || (!c.spoke && (p == Port(c.subscribePort, "tcp") || (c.deployMonitor && p == Port(c.monitorPort, "tcp"))))
      || p == Port(80, "tcp") || p == Port(443, "tcp")
      || (c.wgListenPort > 0 && p == Port(c.wgListenPort, "udp"))
  {
    var protocols := if c.enabled == [] then ALL_PROTOCOLS else c.enabled;
    var own := seq(|protocols|, i requires 0 <= i < |protocols| => Port(c.protocolPort(protocols[i]), Transport(protocols[i])));
    AllProtocols();
    assert forall e: Protocol :: Enabled(c, e) <==> e in protocols;
    if e: Protocol :| Enabled(c, e) && p == Port(c.protocolPort(e), if OverUDP(e) then "udp" else "tcp") {
      var i :| 0 <= i < |protocols| && protocols[i] == e;
      assert own[i] == p;
    }
    if p in own {
      var i :| 0 <= i < |own| && own[i] == p;
      assert Enabled(c, protocols[i]);
    }
  }

  lemma AllProtocols()
    ensures forall e: Protocol :: e in ALL_PROTOCOLS
  {
    forall e: Protocol ensures e in ALL_PROTOCOLS {
      match e
      case RealityVision => assert ALL_PROTOCOLS[0] == e;
      case RealityGRPC => assert ALL_PROTOCOLS[1] == e;
      case Hysteria2 => assert ALL_PROTOCOLS[2] == e;
      case TUIC => assert ALL_PROTOCOLS[3] == e;
      case AnyTLS => assert ALL_PROTOCOLS[4] == e;
    }
  }

  function Itoa(n: int): string {
    if n < 0 then "-" + Decimal(-n) else Decimal(n)
  }

  /** firewallPortKey. */
  function PortKey(p: Port): string {
    Lower(p.proto) + "/" + Itoa(p.number)
  }

  predicate Plain(ports: seq<Port>) {
    forall i :: 0 <= i < |ports| ==> ports[i].proto == "tcp" || ports[i].proto == "udp"
  }

  lemma PlainJoin(a: seq<Port>, b: seq<Port>)
    requires Plain(a) && Plain(b)
    ensures Plain(a + b)
  {
  }

  lemma PortsArePlain(c: Config)
    ensures Plain(FirewallPorts(c))
  {
    var protocols := if c.enabled == [] then ALL_PROTOCOLS else c.enabled;
    var first := seq(|protocols|, i requires 0 <= i < |protocols| => Port(c.protocolPort(protocols[i]), Transport(protocols[i])));
    var public := if c.spoke then []
                  else [Port(c.subscribePort, "tcp")] + if c.deployMonitor then [Port(c.monitorPort, "tcp")] else [];
    var web := [Port(80, "tcp"), Port(443, "tcp")];
    var overlay := if c.wgListenPort > 0 then [Port(c.wgListenPort, "udp")] else [];
    PlainJoin(first, public);
    PlainJoin(first + public, web);
    PlainJoin(first + public + web, overlay);
  }

  lemma ItoaInjective(m: int, n: int)
    requires Itoa(m) == Itoa(n)
    ensures m == n
  {
    assert Itoa(m)[0] == '-' <==> m < 0;
    assert Itoa(n)[0] == '-' <==> n < 0;
    if m < 0 {
      assert Itoa(m)[1..] == Decimal(-m) && Itoa(n)[1..] == Decimal(-n);
      DecimalInjective(-m, -n);
    } else {
      DecimalInjective(m, n);
    }
  }

  /** Two managed ports share a key only if they are the same port. */
  lemma PortKeyInjective(p: Port, q: Port)
    requires Plain([p]) && Plain([q]) && PortKey(p) == PortKey(q)
    ensures p == q
  {
    assert [p][0] == p && [q][0] == q;
    assert Lower("tcp") == "tcp" && Lower("udp") == "udp";
    IpKey.CutFirst(p.proto, '/', Itoa(p.number));
    IpKey.CutFirst(q.proto, '/', Itoa(q.number));
    ItoaInjective(p.number, q.number);
  }

  function Keys(ports: seq<Port>): set<string> {
    if ports == [] then {} else Keys(ports[..|ports| - 1]) + {PortKey(ports[|ports| - 1])}
  }

  lemma {:induction false} KeysMeanPorts(ports: seq<Port>, p: Port)
    requires Plain(ports) && Plain([p])
    ensures PortKey(p) in Keys(ports) <==> p in ports
  {
    if ports != [] {
      hide PortKey;
      var shorter, last := ports[..|ports| - 1], ports[|ports| - 1];
      assert ports == shorter + [last] && [last][0] == last;
      KeysMeanPorts(shorter, p);
      if PortKey(last) == PortKey(p) {
        PortKeyInjective(last, p);
      }
    }
  }

  method KeySet(ports: seq<Port>) returns (keys: set<string>)
    ensures keys == Keys(ports)
  {
    keys := {};
    for i := 0 to |ports|
      invariant keys == Keys(ports[..i])
    {
      keys := keys + {PortKey(ports[i])};
      assert ports[..i + 1][..i] == ports[..i];
    }
    assert ports[..|ports|] == ports;
  }

  method Without(ports: seq<Port>, others: seq<Port>) returns (rest: seq<Port>)
    requires Plain(ports) && Plain(others)
    ensures forall p :: p in rest <==> p in ports && p !in others
  {
    hide PortKey, Keys;
    var keys := KeySet(others);
    rest := [];
    for i := 0 to |ports|
      invariant forall p :: p in rest <==> p in ports[..i] && p !in others
    {
      assert [ports[i]][0] == ports[i];
      KeysMeanPorts(others, ports[i]);
      if PortKey(ports[i]) !in keys {
        rest := rest + [ports[i]];
      }
    }
    assert ports[..|ports|] == ports;
  }

  /** added is new in next and stale is gone from it, as sets of ports. */
  method FirewallPortChanges(former: Config, next: Config) returns (added: seq<Port>, stale: seq<Port>)
    ensures forall p :: p in added <==> p in FirewallPorts(next) && p !in FirewallPorts(former)
    ensures forall p :: p in stale <==> p in FirewallPorts(former) && p !in FirewallPorts(next)
  {
    PortsArePlain(former);
    PortsArePlain(next);
    added := Without(FirewallPorts(next), FirewallPorts(former));
    stale := Without(FirewallPorts(former), FirewallPorts(next));
  }

  // ------------------------------------------------------------ firewall commands

  datatype Command = Allow(port: Port) | DeleteAllow(port: Port) | AddPermanent(port: Port) | RemovePermanent(port: Port) | Reload

  /** What is open now, and what firewalld would open after a reload; ufw rules are both at once. */
  datatype Rules = Rules(open: set<Port>, permanent: set<Port>)

  function Obey(r: Rules, c: Command): Rules {
    match c
    case Allow(p) => Rules(r.open + {p}, r.permanent + {p})
    case DeleteAllow(p) => Rules(r.open - {p}, r.permanent - {p})
    case AddPermanent(p) => r.(permanent := r.permanent + {p})
    case RemovePermanent(p) => r.(permanent := r.permanent - {p})
    case Reload => r.(open := r.permanent)
  }

  function ObeyAll(r: Rules, commands: seq<Command>): Rules {
    if commands == [] then r else Obey(ObeyAll(r, commands[..|commands| - 1]), commands[|commands| - 1])
  }

  /** Only ports with a positive number are ever put into a command. */
  function Effective(ports: seq<Port>): set<Port> {
    set p | p in ports && p.number > 0
  }

  function RuleFor(f: Firewall, p: Port, remove: bool): seq<Command> {
    match f
    case UFW => [if remove then DeleteAllow(p) else Allow(p)]
    case Firewalld => [if remove then RemovePermanent(p) else AddPermanent(p)]
    case NoFirewall => []
  }

  function RulesFor(f: Firewall, ports: seq<Port>, remove: bool): seq<Command> {
    if ports == [] then []
    else
      var last := ports[|ports| - 1];
      RulesFor(f, ports[..|ports| - 1], remove) + if last.number <= 0 then [] else RuleFor(f, last, remove)
  }

  function Commands(f: Firewall, ports: seq<Port>, remove: bool): seq<Command> {
    var rules := RulesFor(f, ports, remove);
    if f.Firewalld? && |rules| > 0 then rules + [Reload] else rules
  }

  /** firewallPortCommands. */
  method FirewallCommands(f: Firewall, ports: seq<Port>, remove: bool) returns (commands: seq<Command>)
    ensures commands == Commands(f, ports, remove)
  {
    commands := [];
    for i := 0 to |ports|
      invariant commands == RulesFor(f, ports[..i], remove)
    {
      assert ports[..i + 1][..i] == ports[..i];
      if ports[i].number <= 0 {
        continue;
      }
      commands := commands + RuleFor(f, ports[i], remove);
    }
    assert ports[..|ports|] == ports;
    if f.Firewalld? && |commands| > 0 {
      commands := commands + [Reload];
    }
  }

  // What any prefix of the commands does.

  predicate Touches(c: Command, ports: set<Port>, remove: bool) {
    match c
    case Reload => true
    case Allow(p) => !remove && p in ports
    case AddPermanent(p) => !remove && p in ports
    case DeleteAllow(p) => remove && p in ports
    case RemovePermanent(p) => remove && p in ports
  }

  lemma {:induction false} CommandsTouch(f: Firewall, ports: seq<Port>, remove: bool)
    ensures forall c :: c in Commands(f, ports, remove) ==> Touches(c, Effective(ports), remove)
  {
    if ports != [] {
      var shorter := ports[..|ports| - 1];
      CommandsTouch(f, shorter, remove);
      assert Effective(shorter) <= Effective(ports);
      forall c | c in RulesFor(f, ports, remove) ensures Touches(c, Effective(ports), remove) {
        if c in RulesFor(f, shorter, remove) {
          assert c in Commands(f, shorter, remove);
        }
      }
    }
  }

  predicate Covered(needed: set<Port>, r: Rules) {
    needed <= r.open && needed <= r.permanent
  }

  /** Opening keeps every needed port open, and so does closing others, however far the commands get. */
  lemma {:induction false} PrefixCovers(r: Rules, commands: seq<Command>, ports: set<Port>, remove: bool, needed: set<Port>)
    requires forall c :: c in commands ==> Touches(c, ports, remove)
    requires Covered(needed, r) && (remove ==> needed !! ports)
    ensures Covered(needed, ObeyAll(r, commands))
  {
    if commands != [] {
      assert commands[|commands| - 1] in commands;
      PrefixCovers(r, commands[..|commands| - 1], ports, remove, needed);
    }
  }

  /** However far they get, opening commands open nothing but their own ports, and closing ones nothing at all. */
  lemma {:induction false} PrefixBounded(r: Rules, commands: seq<Command>, ports: set<Port>, remove: bool, limit: set<Port>)
    requires forall c :: c in commands ==> Touches(c, ports, remove)
    requires r.open <= limit && r.permanent <= limit && (!remove ==> ports <= limit)
    ensures ObeyAll(r, commands).open <= limit && ObeyAll(r, commands).permanent <= limit
  {
    if commands != [] {
      assert commands[|commands| - 1] in commands;
      PrefixBounded(r, commands[..|commands| - 1], ports, remove, limit);
    }
  }

  /** The rules with the given ports opened or closed, reload aside. */
  function Done(r: Rules, f: Firewall, ports: set<Port>, remove: bool): Rules {
    var permanent := if remove then r.permanent - ports else r.permanent + ports;
    match f
    case UFW => Rules(if remove then r.open - ports else r.open + ports, permanent)
    case Firewalld => r.(permanent := permanent)
    case NoFirewall => r
  }

  lemma OneRule(r: Rules, f: Firewall, ports: set<Port>, p: Port, remove: bool)
    requires !f.NoFirewall?
    ensures |RuleFor(f, p, remove)| == 1
    ensures Obey(Done(r, f, ports, remove), RuleFor(f, p, remove)[0]) == Done(r, f, ports + {p}, remove)
  {
    assert r.open - (ports + {p}) == r.open - ports - {p};
    assert r.permanent - (ports + {p}) == r.permanent - ports - {p};
    assert r.open + (ports + {p}) == r.open + ports + {p};
    assert r.permanent + (ports + {p}) == r.permanent + ports + {p};
  }

  lemma EffectiveStep(ports: seq<Port>, last: Port)
    ensures Effective(ports + [last]) == Effective(ports) + if last.number > 0 then {last} else {}
  {
  }

  lemma {:induction false} AllRules(r: Rules, f: Firewall, ports: seq<Port>, remove: bool)
    ensures ObeyAll(r, RulesFor(f, ports, remove)) == Done(r, f, Effective(ports), remove)
  {
    if ports != [] {
      hide Done, RuleFor, Effective, Obey;
      var shorter, last := ports[..|ports| - 1], ports[|ports| - 1];
      AllRules(r, f, shorter, remove);
      assert ports == shorter + [last];
      EffectiveStep(shorter, last);
      var rules := RulesFor(f, shorter, remove);
      if last.number <= 0 {
        assert RulesFor(f, ports, remove) == rules;
        assert Effective(shorter) + {} == Effective(shorter);
      } else if !f.NoFirewall? {
        OneRule(r, f, Effective(shorter), last, remove);
        assert (rules + RuleFor(f, last, remove))[..|rules|] == rules;
      } else {
        NothingToObey(r, ports, remove, Effective(ports), Effective(shorter));
      }
    } else {
      assert Effective(ports) == {};
    }
  }

  lemma {:induction false} NothingToObey(r: Rules, ports: seq<Port>, remove: bool, a: set<Port>, b: set<Port>)
    ensures RulesFor(NoFirewall, ports, remove) == [] && Done(r, NoFirewall, a, remove) == Done(r, NoFirewall, b, remove) == r
  {
    if ports != [] {
      NothingToObey(r, ports[..|ports| - 1], remove, a, b);
    }
  }

  lemma {:induction false} NoRules(f: Firewall, ports: seq<Port>, remove: bool)
    requires RulesFor(f, ports, remove) == [] && !f.NoFirewall?
    ensures Effective(ports) == {}
  {
    if ports != [] {
      var shorter, last := ports[..|ports| - 1], ports[|ports| - 1];
      assert |RuleFor(f, last, remove)| == 1;
      assert |RulesFor(f, ports, remove)| == |RulesFor(f, shorter, remove)| + if last.number <= 0 then 0 else 1;
      NoRules(f, shorter, remove);
      forall p | p in ports ensures p.number <= 0 {
        assert p in shorter || p == last;
        assert p in shorter && p.number > 0 ==> p in Effective(shorter);
      }
    }
  }

  /** Without a positive port, or without a firewall, nothing is issued, not even a reload. */
  lemma {:induction false} NothingIssued(f: Firewall, ports: seq<Port>, remove: bool)
    ensures Commands(f, ports, remove) == [] <==> f.NoFirewall? || Effective(ports) == {}
  {
    if ports != [] && !f.NoFirewall? {
      var shorter, last := ports[..|ports| - 1], ports[|ports| - 1];
      NothingIssued(f, shorter, remove);
      assert ports == shorter + [last];
      EffectiveStep(shorter, last);
      hide Effective;
      assert |RuleFor(f, last, remove)| == 1;
    } else if f.NoFirewall? {
      NothingForNoFirewall(ports, remove);
    }
  }

  /** When every command is done, exactly the given ports have been opened, or closed. */
  lemma AllCommands(r: Rules, f: Firewall, ports: seq<Port>, remove: bool)
    requires !f.NoFirewall? && r.open == r.permanent
    ensures var done := if remove then r.open - Effective(ports) else r.open + Effective(ports);
      ObeyAll(r, Commands(f, ports, remove)) == Rules(done, done)
  {
    var rules := RulesFor(f, ports, remove);
    AllRules(r, f, ports, remove);
    if f.Firewalld? {
      if |rules| > 0 {
        assert (rules + [Reload])[..|rules|] == rules;
        assert ObeyAll(r, rules + [Reload]) == Obey(ObeyAll(r, rules), Reload);
      } else {
        NoRules(f, ports, remove);
        assert ObeyAll(r, rules) == r;
      }
    }
  }

  /** The same for closing after an opening that got only part of the way. */
  lemma AllClosed(r: Rules, f: Firewall, ports: seq<Port>)
    requires !f.NoFirewall? && (f.UFW? ==> r.open == r.permanent)
    requires r.open - Effective(ports) == r.permanent - Effective(ports)
    ensures var done := r.permanent - Effective(ports);
      ObeyAll(r, Commands(f, ports, true)) == Rules(done, done)
  {
    var rules := RulesFor(f, ports, true);
    AllRules(r, f, ports, true);
    if f.Firewalld? {
      if |rules| > 0 {
        assert (rules + [Reload])[..|rules|] == rules;
        assert ObeyAll(r, rules + [Reload]) == Obey(ObeyAll(r, rules), Reload);
      } else {
        NoRules(f, ports, true);
        assert ObeyAll(r, rules) == r;
      }
    }
  }

  lemma {:induction false} UfwTogether(r: Rules, commands: seq<Command>)
    requires r.open == r.permanent && forall c :: c in commands ==> c.Allow? || c.DeleteAllow?
    ensures ObeyAll(r, commands).open == ObeyAll(r, commands).permanent
  {
    if commands != [] {
      assert commands[|commands| - 1] in commands;
      UfwTogether(r, commands[..|commands| - 1]);
    }
  }

  lemma {:induction false} UfwCommands(ports: seq<Port>, remove: bool)
    ensures forall c :: c in Commands(UFW, ports, remove) ==> c.Allow? || c.DeleteAllow?
  {
    if ports != [] {
      UfwCommands(ports[..|ports| - 1], remove);
      assert Commands(UFW, ports[..|ports| - 1], remove) == RulesFor(UFW, ports[..|ports| - 1], remove);
    }
  }

  /** Whatever was open before: after all opening commands the given ports are. */
  lemma AllOpened(r: Rules, f: Firewall, ports: seq<Port>)
    requires !f.NoFirewall?
    ensures Covered(Effective(ports), ObeyAll(r, Commands(f, ports, false)))
  {
    var rules := RulesFor(f, ports, false);
    AllRules(r, f, ports, false);
    if f.Firewalld? {
      if |rules| > 0 {
        assert (rules + [Reload])[..|rules|] == rules;
        assert ObeyAll(r, rules + [Reload]) == Obey(ObeyAll(r, rules), Reload);
      } else {
        NoRules(f, ports, false);
      }
    }
  }

  lemma NothingForNoFirewall(ports: seq<Port>, remove: bool)
    ensures Commands(NoFirewall, ports, remove) == []
  {
    NothingToObey(Rules({}, {}), ports, remove, {}, {});
  }

  // ------------------------------------------------------------ the reconfiguration

  /** Which configuration sing-box may be running. */
  datatype Live = OldConfig | NewConfig | Either

  /** The rules are the former ones and some of the added ports. */
  ghost predicate OnlyAdded(r: Rules, f: Firewall, was: set<Port>, added: set<Port>, limit: set<Port>) {
    && was !! added && limit == was + added && Covered(was, r)
    && (f.UFW? ==> r.open == r.permanent)
  }

  class Node {
    var rules: Rules
    var live: Live
    /** Which one config.json holds. */
    var disk: Live

    constructor (rules: Rules)
      ensures this.rules == rules && live == OldConfig && disk == OldConfig
    {
      this.rules, live, disk := rules, OldConfig, OldConfig;
    }

    /** calm says that nothing fails by itself; otherwise anything may, with or without effect. */
    method Outside(calm: bool) returns (ok: bool)
      ensures calm ==> ok
    {
      ok := *;
      ok := ok || calm;
    }

    method RunCommand(c: Command, calm: bool) returns (ok: bool)
      modifies this`rules
      ensures calm ==> ok
      ensures rules == old(rules) || rules == Obey(old(rules), c)
      ensures ok ==> rules == Obey(old(rules), c)
    {
      ok := Outside(calm);
      var effect: bool := *;
      if ok || effect { rules := Obey(rules, c); }
    }

    /** RunCommands stops at the first failure; done counts the commands that took effect. */
    method RunCommands(commands: seq<Command>, calm: bool) returns (ok: bool, ghost done: nat)
      modifies this`rules
      ensures calm ==> ok
      ensures done <= |commands| && rules == ObeyAll(old(rules), commands[..done])
      ensures ok ==> done == |commands|
    {
      done := 0;
      for i := 0 to |commands|
        invariant done == i && rules == ObeyAll(old(rules), commands[..i])
      {
        ghost var before := rules;
        ok := RunCommand(commands[i], calm);
        assert commands[..i + 1][..i] == commands[..i];
        if rules == Obey(before, commands[i]) { done := i + 1; }
        if !ok { return; }
      }
      ok := true;
    }

    /** Opens or closes ports: never further than asked, never closing a port the caller still needs. */
    method Change(f: Firewall, ports: seq<Port>, remove: bool, calm: bool, ghost needed: set<Port>, ghost limit: set<Port>)
      returns (ok: bool)
      requires Covered(needed, rules) && (remove ==> needed !! Effective(ports))
      requires rules.open <= limit && rules.permanent <= limit && (!remove ==> Effective(ports) <= limit)
      modifies this`rules
      ensures Covered(needed, rules) && rules.open <= limit && rules.permanent <= limit
      ensures f.UFW? && old(rules.open == rules.permanent) ==> rules.open == rules.permanent
      ensures ok ==> rules == ObeyAll(old(rules), Commands(f, ports, remove))
      ensures f.NoFirewall? ==> rules == old(rules)
      ensures calm ==> ok
    {
      var commands := FirewallCommands(f, ports, remove);
      ghost var done;
      ok, done := RunCommands(commands, calm);
      ghost var ran := commands[..done];
      CommandsTouch(f, ports, remove);
      assert forall c :: c in ran ==> c in commands;
      PrefixCovers(old(rules), ran, Effective(ports), remove, needed);
      PrefixBounded(old(rules), ran, Effective(ports), remove, limit);
      if f.UFW? && old(rules.open == rules.permanent) {
        UfwCommands(ports, remove);
        UfwTogether(old(rules), ran);
      }
      if f.NoFirewall? { NothingForNoFirewall(ports, remove); }
      if ok { assert ran == commands; }
    }

    /**
     The Services step: the new configuration, or the old one restored, or nobody knows.
     lies says that the rename takes effect and reports failure: the old configuration
     then runs on over the new file.
     */
    method Activate(calm: bool, lies: bool) returns (ok: bool, activated: bool)
      requires live == OldConfig && disk == OldConfig
      modifies this`live, this`disk
      ensures ok ==> activated && live == NewConfig && disk == NewConfig
      ensures !ok && !activated ==> live == OldConfig && disk == if lies then NewConfig else OldConfig
      ensures !ok && activated ==> live == Either
      ensures lies ==> !ok && !activated
      ensures calm ==> ok == !lies
    {
      var renamed := Outside(calm);
      if lies {
        disk := NewConfig;
        return false, false;
      }
      if !renamed { return false, false; }
      disk, live := NewConfig, Either;
      var started := Outside(calm);
      if started {
        live := NewConfig;
        return true, true;
      }
      var written := Outside(calm);
      if !written {
        disk := Either;
        return false, true;
      }
      disk := OldConfig;
      var restarted := Outside(calm);
      if !restarted { return false, true; }
      live := OldConfig;
      return false, false;
    }

    /** Port check, Firewall and Config; touched is firewallTouched. */
    method Prepare(f: Firewall, added: seq<Port>, calm: bool, ghost needed: set<Port>, ghost limit: set<Port>)
      returns (ok: bool, touched: bool)
      requires Covered(needed, rules) && rules.open <= limit && rules.permanent <= limit && Effective(added) <= limit
      modifies this`rules
      ensures Covered(needed, rules) && rules.open <= limit && rules.permanent <= limit
      ensures f.UFW? && old(rules.open == rules.permanent) ==> rules.open == rules.permanent
      ensures calm ==> ok
      ensures !touched ==> rules == old(rules)
      ensures touched ==> !f.NoFirewall?
      ensures f.NoFirewall? ==> rules == old(rules)
      ensures ok && !f.NoFirewall? ==> Covered(Effective(added), rules)
      ensures ok && !f.NoFirewall? && old(rules.open == rules.permanent) ==>
        rules.open == rules.permanent == old(rules.open) + Effective(added)
    {
      touched := false;
      var checked := Outside(calm);
      if !checked { return false, touched; }
      var going := Outside(calm);
      if !going { return false, touched; }
      if !f.NoFirewall? && |added| > 0 {
        touched := true;
        var allOpen := Change(f, added, false, calm, needed, limit);
        if !allOpen { return false, touched; }
        AllOpened(old(rules), f, added);
        if old(rules.open == rules.permanent) { AllCommands(old(rules), f, added, false); }
      } else if |added| == 0 {
        assert Effective(added) == {};
      }
      ok := Outside(calm);
    }

    /** What must be open for whatever may be running. */
    ghost predicate CoversLive(oldPorts: set<Port>, newPorts: set<Port>)
      reads this
    {
      && (live != NewConfig ==> Covered(oldPorts, rules))
      && (live != OldConfig ==> Covered(newPorts, rules))
    }

    /** Finalize, Firewall cleanup, Subscriptions and Nginx config. */
    method Finish(f: Firewall, stale: seq<Port>, calm: bool, ghost needed: set<Port>) returns (ok: bool)
      requires Covered(needed, rules) && Effective(stale) !! needed
      modifies this`rules
      ensures calm ==> ok
      ensures f.NoFirewall? ==> rules == old(rules)
      ensures Covered(needed, rules)
      ensures ok && !f.NoFirewall? && old(rules.open == rules.permanent) ==>
        rules.open == rules.permanent == old(rules.open) - Effective(stale)
    {
      var finalized := Outside(calm);
      if !finalized { return false; }
      if !f.NoFirewall? && |stale| > 0 {
        var closed := Change(f, stale, true, calm, needed, rules.open + rules.permanent);
        if !closed { return false; }
        if old(rules.open == rules.permanent) { AllCommands(old(rules), f, stale, true); }
      } else if |stale| == 0 {
        assert Effective(stale) == {};
      }
      ok := Outside(calm);
    }

    /** The deferred cleanup: closes what the Firewall step may have opened. */
    method CloseAgain(f: Firewall, added: seq<Port>, calm: bool, ghost needed: set<Port>, ghost was: set<Port>,
                      ghost limit: set<Port>)
      returns (ok: bool)
      requires Covered(needed, rules) && rules.open <= limit && rules.permanent <= limit
      requires !f.NoFirewall? && needed !! Effective(added)
      modifies this`rules
      ensures Covered(needed, rules)
      ensures calm ==> ok
      ensures ok && OnlyAdded(old(rules), f, was, Effective(added), limit) ==> rules == Rules(was, was)
    {
      ok := Change(f, added, true, calm, needed, limit);
      ghost var partial := old(rules);
      if ok && OnlyAdded(partial, f, was, Effective(added), limit) {
        assert partial.open - Effective(added) == was && partial.permanent - Effective(added) == was;
        AllClosed(partial, f, added);
      }
    }

    /**
     Reconfigure. At every exit the ports of whatever may be running are open, now and
     after a reload; a full success turns exactly the old ports into exactly the new
     ones; and a failure before activation, once its own cleanup succeeded, leaves the
     rules exactly as they were. With the old configuration still running, config.json
     is its own unless the rename of the new one takes effect and reports failure. When
     nothing else fails, a configuration that can be read is replaced exactly if the
     rename tells the truth; if it lies, the old one runs over the new file.
     */
    method Reconfigure(current: Config, next: Config, loads: bool, calm: bool, lies: bool) returns (ok: bool, ghost cleaned: bool)
      requires live == OldConfig && disk == OldConfig
      modifies this
      ensures var was := Effective(FirewallPorts(current.(spoke := next.spoke, firewall := next.firewall)));
        var wanted := Effective(FirewallPorts(next));
        && (next.firewall.NoFirewall? ==> rules == old(rules))
        && (!next.firewall.NoFirewall? && old(Covered(was, rules)) ==> CoversLive(was, wanted))
        && (ok ==> live == NewConfig && disk == NewConfig)
        && (!next.firewall.NoFirewall? && ok && old(rules) == Rules(was, was) ==> rules == Rules(wanted, wanted))
        && (!ok && cleaned && live == OldConfig && old(rules) == Rules(was, was) ==> rules == old(rules))
      ensures calm ==> (ok <==> loads && !lies) && cleaned
      ensures calm && loads && lies ==> live == OldConfig && disk == NewConfig
      ensures !ok && live == OldConfig ==> disk == OldConfig || (lies && disk == NewConfig)
    {
      cleaned := true;
      if !loads { return false, cleaned; }
      var former := current.(spoke := next.spoke, firewall := next.firewall);
      var added, stale := FirewallPortChanges(former, next);
      ok := Outside(calm);
      if !ok { return; }
      hide FirewallPorts;
      ghost var was, wanted := Effective(FirewallPorts(former)), Effective(FirewallPorts(next));
      assert Effective(added) == wanted - was && Effective(stale) == was - wanted;
      ghost var needed := if Covered(was, rules) then was else {};
      ghost var limit := rules.open + rules.permanent + Effective(added);
      var touched;
      var activated := false;
      ok, touched := Prepare(next.firewall, added, calm, needed, limit);
      if ok {
        ok, activated := Activate(calm, lies);
      }
      if ok {
        ok := Finish(next.firewall, stale, calm, if Covered(wanted, rules) then wanted else {});
        if ok && !next.firewall.NoFirewall? && old(rules) == Rules(was, was) {
          assert was + (wanted - was) - (was - wanted) == wanted;
        }
      }
      if !ok && touched && !activated {
        cleaned := CloseAgain(next.firewall, added, calm, needed, was, limit);
      }
    }
  }
}
