/**
 * The steps of Up over a network whose commands may fail: internal/wgquick/quick_linux.go.
 * Every method says what it makes of the network, and which script of commands it follows.
 */
module QuickRuns {
  import opened Wrappers
  import opened WgTypes
  import opened Seqs
  import opened Quick
  import opened QuickShell

  // ----- rules -----

  /** The two rules that isolate the default route of a family. */
  function Pair(f: Family, table: int): multiset<Rule> {
    multiset{NotMark(f, table, table), MainSuppressed(f)}
  }

  function PairIf(b: bool, f: Family, table: int): multiset<Rule> {
    if b then Pair(f, table) else multiset{}
  }

  function RulesOf(fs: set<Family>, table: int): multiset<Rule> {
    PairIf(V4 in fs, V4, table) + PairIf(V6 in fs, V6, table)
  }

  lemma {:induction false} RulesOfMore(fs: set<Family>, f: Family, table: int)
    requires f !in fs
    ensures RulesOf(fs + {f}, table) == RulesOf(fs, table) + Pair(f, table)
  {
    hide Pair;
    match f
    case V4 => assert V6 in fs + {f} <==> V6 in fs;
    case V6 => assert V4 in fs + {f} <==> V4 in fs;
  }

  lemma {:induction false} TwoDeletions(rules: multiset<Rule>, f: Family, table: int)
    requires Pair(f, table) <= rules
    ensures NotMark(f, table, table) in rules && MainSuppressed(f) in rules - multiset{NotMark(f, table, table)}
    ensures rules - multiset{NotMark(f, table, table)} - multiset{MainSuppressed(f)} == rules - Pair(f, table)
  {
    var a, b := NotMark(f, table, table), MainSuppressed(f);
    assert a in Pair(f, table) && b in Pair(f, table);
    assert Pair(f, table)[a] == 1 && Pair(f, table)[b] == 1;
  }

  datatype Failure =
    | EmptyName | PreUpFailed | InterfaceFailed | ClientFailed | ConfigureFailed | AddressFailed | LinkFailed
    | RouteFailed | MarkRuleFailed(family: Family) | MainRuleFailed(family: Family) | PostUpFailed
    | PreDownFailed | DeleteFailed | PostDownFailed

  /** What a failed Up leaves behind: the first rule of a pair whose second rule failed. */
  function Leaked(e: Failure, table: int): multiset<Rule> {
    if e.MainRuleFailed? then multiset{NotMark(e.family, table, table)} else multiset{}
  }

  // ----- the commands of Up, in order -----

  /** The mark rule, then the rule that hides the default routes of the main table. */
  function RuleCommands(f: Family, table: int): seq<Command> {
    [RuleAdd(NotMark(f, table, table)), RuleAdd(MainSuppressed(f))]
  }

  /** The commands for one network, the first of which is number `at`. */
  function NetCommands(c: QuickConfig, env: Env, net: Cidr, at: nat): seq<Command> {
    var table := RouteTable(c);
    match RouteMode(c)
    case Off => []
    case Explicit => [RouteAdd(c.name, KeyOf(net, table))]
    case Auto =>
      if IsDefaultRoute(net) then [RouteAdd(c.name, KeyOf(net, table))] + RuleCommands(FamilyOf(net), table)
      else if !env.fails(at) && env.shown(at) then [RouteShow(c.name, net)]
      else [RouteShow(c.name, net), RouteAdd(c.name, KeyOf(net, MAIN_TABLE))]
  }

  function RouteCommands(c: QuickConfig, env: Env, nets: seq<Cidr>, at: nat): seq<Command>
  {
    if nets == [] then []
    else
      var before := RouteCommands(c, env, nets[..|nets| - 1], at);
      before + NetCommands(c, env, nets[|nets| - 1], at + |before|)
  }

  function AddressCommands(name: string, addresses: seq<Cidr>): (r: seq<Command>)
    ensures |r| == |addresses|
  {
    seq(|addresses|, i requires 0 <= i < |addresses| => AddressAdd(name, addresses[i]))
  }

  function DNSCommands(c: QuickConfig, env: Env, at: nat): seq<Command> {
    if c.dns == [] then []
    else if env.fails(at) then [FindResolvconf]
    else [FindResolvconf, DNSAdd(c.name)]
  }

  function LoadCommands(c: QuickConfig): seq<Command> {
    [OpenClient, Configure(c.name, DeviceConfig(c))]
  }

  function LinkCommands(c: QuickConfig): seq<Command> {
    LoadCommands(c) + AddressCommands(c.name, c.addresses) + [LinkUp(c.name, if c.mtu > 0 then c.mtu else 0)]
  }

  function SetupCommands(c: QuickConfig, env: Env, at: nat): seq<Command> {
    LinkCommands(c) + DNSCommands(c, env, at + |LinkCommands(c)|)
  }

  /** The commands after the interface exists. */
  function RaiseCommands(c: QuickConfig, env: Env, at: nat): seq<Command> {
    var setup := SetupCommands(c, env, at);
    setup + RouteCommands(c, env, AllNets(c.peers), at + |setup|) + Hooks(c.postUp)
  }

  /** All commands of Up when none of them makes it stop. */
  function UpCommands(c: QuickConfig, env: Env, at: nat): seq<Command> {
    var start := Hooks(c.preUp) + [LinkAdd(c.name)];
    start + RaiseCommands(c, env, at + |start|)
  }

  lemma {:induction false} RouteCommandsConcat(c: QuickConfig, env: Env, a: seq<Cidr>, b: seq<Cidr>, at: nat)
    ensures var before := RouteCommands(c, env, a, at);
            RouteCommands(c, env, a + b, at) == before + RouteCommands(c, env, b, at + |before|)
    decreases |b|
  {
    hide NetCommands;
    if b == [] {
      Assoc(a, [], []);
    } else {
      var init := b[..|b| - 1];
      assert (a + b)[..|a + b| - 1] == a + init;
      RouteCommandsConcat(c, env, a, init, at);
    }
  }

  lemma {:induction false} RoutesPrefix(c: QuickConfig, env: Env, a: seq<Cidr>, b: seq<Cidr>, at: nat)
    requires a <= b
    ensures RouteCommands(c, env, a, at) <= RouteCommands(c, env, b, at)
  {
    hide RouteCommands;
    assert b == a + b[|a|..];
    RouteCommandsConcat(c, env, a, b[|a|..], at);
  }

  lemma {:induction false} NetsPrefix(ps: seq<QuickPeer>, i: nat)
    requires i <= |ps|
    ensures AllNets(ps[..i]) <= AllNets(ps)
  {
    if i == |ps| {
      Whole(ps);
    } else {
      NetsPrefix(ps[..|ps| - 1], i);
      assert ps[..|ps| - 1][..i] == ps[..i];
    }
  }

  /** The failed command is the second of a pair of rules exactly when the failure says so. */
  predicate Ends(history: seq<Command>, e: Failure) {
    && history != []
    && var last := history[|history| - 1];
       if e.MainRuleFailed? then last == RuleAdd(MainSuppressed(e.family)) else !IsMain(last)
  }

  /** Before the interface exists there is nothing to undo. */
  predicate NotCreated(e: Failure) {
    e == EmptyName || e == PreUpFailed || e == InterfaceFailed
  }

  predicate IsMain(cmd: Command) {
    cmd.RuleAdd? && cmd.rule.MainSuppressed?
  }

  // ----- up -----

  function AddressSet(addresses: seq<Cidr>): set<Cidr>
  {
    if addresses == [] then {} else AddressSet(addresses[..|addresses| - 1]) + {addresses[|addresses| - 1]}
  }

  /** The interface that Up is to bring about. */
  function Ready(c: QuickConfig): Link {
    Link(Some(DeviceConfig(c)), AddressSet(c.addresses), true, if c.mtu > 0 then c.mtu else 0)
  }

  /** Only the interface `name` and the DNS entries may differ. */
  ghost predicate OnlyLink(net: Net, was: Net, name: string) {
    && net.routes == was.routes && net.rules == was.rules
    && name in net.links && net.links - {name} == was.links - {name}
    && (net.dns == was.dns || net.dns == was.dns + {name})
  }

  method AddAddresses(sh: Shell, c: QuickConfig) returns (ok: bool)
    requires sh.Valid() && c.name in sh.net.links && sh.net.links[c.name].addresses == {}
    modifies sh
    ensures sh.Valid() && Followed(sh.env, old(sh.history), sh.history, AddressCommands(c.name, c.addresses), ok)
    ensures OnlyLink(sh.net, old(sh.net), c.name) && sh.net.dns == old(sh.net.dns)
    ensures !ok ==> sh.history != [] && sh.history[|sh.history| - 1].AddressAdd?
    ensures ok ==>
              sh.net == WithLink(old(sh.net), c.name, old(sh.net.links)[c.name].(addresses := AddressSet(c.addresses)))
  {
    hide Followed, NetAfter;
    ghost var link, start := sh.net.links[c.name], sh.history;
    assert c.addresses[..0] == [] && link == link.(addresses := AddressSet([]));
    assert sh.net.links[c.name := link] == sh.net.links;
    NothingRun(sh.env, start);
    for i := 0 to |c.addresses|
      invariant sh.Valid() && Followed(sh.env, start, sh.history, AddressCommands(c.name, c.addresses[..i]), true)
      invariant sh.net == WithLink(old(sh.net), c.name, link.(addresses := AddressSet(c.addresses[..i])))
    {
      Snoc(c.addresses, i);
      ghost var before, cmd := sh.history, AddressAdd(c.name, c.addresses[i]);
      ok := sh.AddAddress(c.name, c.addresses[i]);
      Both(sh.env, start, before, sh.history, AddressCommands(c.name, c.addresses[..i]), [cmd], ok);
      assert AddressCommands(c.name, c.addresses[..i]) + [cmd] == AddressCommands(c.name, c.addresses[..i + 1]);
      if !ok {
        Stopped(sh.env, start, sh.history, AddressCommands(c.name, c.addresses[..i + 1]),
          AddressCommands(c.name, c.addresses));
        return;
      }
    }
    Whole(c.addresses);
    ok := true;
  }

  /** In auto mode with a default route, the device carries the mark that the rules except. */
  method MarkedConfig(c: QuickConfig, wgc: Config, default: bool) returns (r: Config)
    requires wgc == Config(c.privateKey, c.listenPort, c.firewallMark, true, EntriesOf(c.peers))
    requires default == (DefaultFamilies(AllNets(c.peers)) != {})
    ensures r == DeviceConfig(c)
  {
    hide EntriesOf, RouteTable, AllNets, DefaultFamilies;
    r := wgc;
    if RouteMode(c) == Auto && default {
      var mark := RouteTable(c);
      r := r.(firewallMark := Some(mark));
    }
  }

  /** The configuration of a new interface. */
  method LoadConfig(sh: Shell, c: QuickConfig) returns (err: Option<Failure>)
    requires sh.Valid() && c.name in sh.net.links && sh.net.links[c.name] == Link(None, {}, false, 0)
    modifies sh
    ensures sh.Valid() && Followed(sh.env, old(sh.history), sh.history, LoadCommands(c), err.None?)
    ensures sh.net == if err.Some? then old(sh.net)
                      else WithLink(old(sh.net), c.name, Link(Some(DeviceConfig(c)), {}, false, 0))
    ensures err.Some? ==> Ends(sh.history, err.value) && !NotCreated(err.value) && !err.value.MainRuleFailed?
  {
    hide DeviceConfig, EntriesOf, RouteTable, RouteMode, AllNets, DefaultFamilies, Followed, NetAfter;
    ghost var h0 := sh.history;
    var ok := sh.Run(OpenClient);
    ghost var h1 := sh.history;
    if !ok {
      Stopped(sh.env, h0, h1, [OpenClient], LoadCommands(c));
      return Some(ClientFailed);
    }
    var wgc := WireGuardConfig(c);
    var default := HasDefaultRoute(c);
    wgc := MarkedConfig(c, wgc, default);
    ok := sh.Run(Configure(c.name, wgc));
    Both(sh.env, h0, h1, sh.history, [OpenClient], [Configure(c.name, wgc)], ok);
    assert [OpenClient] + [Configure(c.name, wgc)] == LoadCommands(c);
    err := if ok then None else Some(ConfigureFailed);
  }

  /** Device, addresses and state of a new interface. */
  method SetUpLink(sh: Shell, c: QuickConfig) returns (err: Option<Failure>)
    requires sh.Valid() && c.name in sh.net.links && sh.net.links[c.name] == Link(None, {}, false, 0)
    modifies sh
    ensures sh.Valid() && Followed(sh.env, old(sh.history), sh.history, LinkCommands(c), err.None?)
    ensures OnlyLink(sh.net, old(sh.net), c.name) && sh.net.dns == old(sh.net.dns)
    ensures err.None? ==> sh.net.links[c.name] == Ready(c)
    ensures err.Some? ==> Ends(sh.history, err.value) && !NotCreated(err.value) && !err.value.MainRuleFailed?
  {
    hide DeviceConfig, Followed, NetAfter, AddressSet, LoadCommands, AddressCommands;
    ghost var h0, load, addresses := sh.history, LoadCommands(c), AddressCommands(c.name, c.addresses);
    err := LoadConfig(sh, c);
    ghost var h1 := sh.history;
    if err.Some? {
      Stopped(sh.env, h0, h1, load, LinkCommands(c));
      return;
    }
    var ok := AddAddresses(sh, c);
    ghost var h2 := sh.history;
    Both(sh.env, h0, h1, h2, load, addresses, ok);
    if !ok {
      Stopped(sh.env, h0, h2, load + addresses, LinkCommands(c));
      return Some(AddressFailed);
    }
    var mtu := if c.mtu > 0 then c.mtu else 0;
    ghost var up := LinkUp(c.name, mtu);
    ok := sh.SetLinkUp(c.name, mtu);
    Both(sh.env, h0, h2, sh.history, load + addresses, [up], ok);
    err := if ok then None else Some(LinkFailed);
  }

  /** Failures of resolvconf are reported but ignored. */
  method SetDNS(sh: Shell, c: QuickConfig)
    requires sh.Valid()
    modifies sh
    ensures sh.Valid() && Followed(sh.env, old(sh.history), sh.history, DNSCommands(c, sh.env, |old(sh.history)|), true)
    ensures sh.net == old(sh.net) || (c.dns != [] && sh.net == old(sh.net).(dns := old(sh.net.dns) + {c.name}))
  {
    hide Followed, NetAfter;
    ghost var h0 := sh.history;
    NothingRun(sh.env, h0);
    if |c.dns| == 0 {
      return;
    }
    var found := sh.Run(FindResolvconf);
    if !found {
      return;
    }
    ghost var h1 := sh.history;
    var _ := sh.Run(DNSAdd(c.name));
    Both(sh.env, h0, h1, sh.history, [FindResolvconf], [DNSAdd(c.name)], true);
    assert [FindResolvconf] + [DNSAdd(c.name)] == [FindResolvconf, DNSAdd(c.name)];
  }

  /** Device, addresses, link and DNS of a new interface. */
  method SetUp(sh: Shell, c: QuickConfig) returns (err: Option<Failure>)
    requires sh.Valid() && c.name in sh.net.links && sh.net.links[c.name] == Link(None, {}, false, 0)
    modifies sh
    ensures sh.Valid() && Followed(sh.env, old(sh.history), sh.history, SetupCommands(c, sh.env, |old(sh.history)|),
              err.None?)
    ensures OnlyLink(sh.net, old(sh.net), c.name)
    ensures sh.net.dns == old(sh.net.dns) || c.dns != []
    ensures err.None? ==> sh.net.links[c.name] == Ready(c)
    ensures err.Some? ==> Ends(sh.history, err.value) && !NotCreated(err.value) && !err.value.MainRuleFailed?
  {
    hide Followed, NetAfter, LinkCommands, DNSCommands, Ready;
    ghost var h0 := sh.history;
    err := SetUpLink(sh, c);
    ghost var h1, link := sh.history, LinkCommands(c);
    if err.Some? {
      Stopped(sh.env, h0, h1, link, SetupCommands(c, sh.env, |h0|));
      return;
    }
    AllRun(sh.env, h0, h1, link);
    SetDNS(sh, c);
    Both(sh.env, h0, h1, sh.history, link, DNSCommands(c, sh.env, |h1|), true);
  }

  // ----- routes -----

  /** Routes of `name` may have been added, nothing else about links, old routes and DNS has changed. */
  ghost predicate RoutesAdded(net: Net, was: Net, name: string) {
    && net.links == was.links && net.dns == was.dns
    && (forall k <- was.routes :: k in net.routes && net.routes[k] == was.routes[k])
    && (forall k <- net.routes :: k in was.routes || net.routes[k] == name)
  }

  function AsSet(fs: seq<Family>): set<Family> {
    set f <- fs
  }

  ghost predicate Once(fs: seq<Family>) {
    forall i, j :: 0 <= i < j < |fs| ==> fs[i] != fs[j]
  }

  /** The rules of the families added so far, and their default routes. */
  ghost predicate Isolates(net: Net, was: Net, added: seq<Family>, table: int) {
    && Once(added)
    && net.rules == was.rules + RulesOf(AsSet(added), table)
    && forall f <- added :: DefaultKey(f, table) in net.routes && DefaultKey(f, table) !in was.routes
  }

  lemma {:induction false} AddFamily(was: Net, before: Net, net: Net, added: seq<Family>, f: Family, table: int)
    requires Isolates(before, was, added, table) && DefaultKey(f, table) !in before.routes
    requires DefaultKey(f, table) in net.routes && was.routes.Keys <= before.routes.Keys <= net.routes.Keys
    requires net.rules == before.rules + Pair(f, table)
    ensures Isolates(net, was, added + [f], table)
  {
    hide DefaultKey, Pair, RulesOf;
    assert f !in AsSet(added);
    assert AsSet(added + [f]) == AsSet(added) + {f};
    RulesOfMore(AsSet(added), f, table);
  }

  lemma {:induction false} Additions(rules: multiset<Rule>, f: Family, table: int)
    ensures rules + Leaked(MarkRuleFailed(f), table) == rules
    ensures rules + Leaked(MainRuleFailed(f), table) == rules + multiset{NotMark(f, table, table)}
    ensures rules + Pair(f, table) == rules + multiset{NotMark(f, table, table)} + multiset{MainSuppressed(f)}
  {
  }

  lemma {:induction false} RuleEnds(history: seq<Command>, e: Failure)
    requires history != [] && (e.MarkRuleFailed? || e.MainRuleFailed?)
    requires var last := history[|history| - 1];
             last.RuleAdd? && if e.MainRuleFailed? then last.rule == MainSuppressed(e.family) else last.rule.NotMark?
    ensures Ends(history, e)
  {
  }

  /** Both rules of a family, or what the failure leaves of them. */
  method AddDefaultRules(sh: Shell, f: Family, table: int) returns (err: Option<Failure>)
    requires sh.Valid()
    modifies sh
    ensures sh.Valid() && Followed(sh.env, old(sh.history), sh.history, RuleCommands(f, table), err.None?)
    ensures sh.net == old(sh.net).(rules := old(sh.net.rules)
                                            + if err.None? then Pair(f, table) else Leaked(err.value, table))
    ensures err.Some? ==> Ends(sh.history, err.value) && !NotCreated(err.value)
    ensures err == Some(MarkRuleFailed(f)) <==> sh.env.fails(|old(sh.history)|)
    ensures err == Some(MainRuleFailed(f)) <==> !sh.env.fails(|old(sh.history)|) && sh.env.fails(|old(sh.history)| + 1)
    ensures err == None || err == Some(MarkRuleFailed(f)) || err == Some(MainRuleFailed(f))
  {
    hide Followed, NetAfter, Pair, Leaked, Ends;
    ghost var rules := sh.net.rules;
    Additions(rules, f, table);
    ghost var h0 := sh.history;
    ghost var mark, main := RuleAdd(NotMark(f, table, table)), RuleAdd(MainSuppressed(f));
    var ok := sh.AddRule(NotMark(f, table, table));
    ghost var h1 := sh.history;
    if !ok {
      Stopped(sh.env, h0, h1, [mark], RuleCommands(f, table));
      RuleEnds(h1, MarkRuleFailed(f));
      return Some(MarkRuleFailed(f));
    }
    ok := sh.AddRule(MainSuppressed(f));
    Both(sh.env, h0, h1, sh.history, [mark], [main], ok);
    assert [mark] + [main] == RuleCommands(f, table);
    if !ok {
      RuleEnds(sh.history, MainRuleFailed(f));
      return Some(MainRuleFailed(f));
    }
    err := None;
  }

  /** A network that the interface already reaches needs no route. */
  method AddRoute(sh: Shell, c: QuickConfig, net: Cidr) returns (ok: bool)
    requires sh.Valid() && RouteMode(c) == Auto && !IsDefaultRoute(net)
    modifies sh
    ensures sh.Valid() && Followed(sh.env, old(sh.history), sh.history,
              NetCommands(c, sh.env, net, |old(sh.history)|), ok)
    ensures sh.net == old(sh.net) || (KeyOf(net, MAIN_TABLE) !in old(sh.net.routes)
              && sh.net == old(sh.net).(routes := old(sh.net.routes)[KeyOf(net, MAIN_TABLE) := c.name]))
    ensures !ok ==> sh.net == old(sh.net) && sh.history != [] && sh.history[|sh.history| - 1].RouteAdd?
  {
    hide Followed, NetAfter, KeyOf, RouteMode, IsDefaultRoute;
    ghost var h0 := sh.history;
    var show := RouteShow(c.name, net);
    var queried := sh.Run(show);
    if queried && sh.env.shown(|sh.history| - 1) {
      return true;
    }
    ghost var h1 := sh.history;
    ghost var add := RouteAdd(c.name, KeyOf(net, MAIN_TABLE));
    ok := sh.AddRouteTable(c.name, KeyOf(net, MAIN_TABLE));
    Both(sh.env, h0, h1, sh.history, [show], [add], ok);
    assert [show] + [add] == [show, add];
  }

  /** The route of a default network in its own table, and its rules. */
  method AddDefault(sh: Shell, c: QuickConfig, net: Cidr) returns (err: Option<Failure>)
    requires sh.Valid() && RouteMode(c) == Auto && IsDefaultRoute(net)
    modifies sh
    ensures sh.Valid() && Followed(sh.env, old(sh.history), sh.history,
              NetCommands(c, sh.env, net, |old(sh.history)|), err.None?)
    ensures err.Some? ==> Ends(sh.history, err.value) && !NotCreated(err.value)
    ensures var f, table := FamilyOf(net), RouteTable(c);
            && sh.net.links == old(sh.net.links) && sh.net.dns == old(sh.net.dns)
            && sh.net.rules == old(sh.net.rules) + (if err.None? then Pair(f, table) else Leaked(err.value, table))
            && (sh.net.routes == old(sh.net.routes)
              || sh.net.routes == old(sh.net.routes)[DefaultKey(f, table) := c.name])
            && (err.None? ==> DefaultKey(f, table) in sh.net.routes)
            && (sh.net.routes == old(sh.net.routes) || DefaultKey(f, table) !in old(sh.net.routes))
            && (err.None? ==> DefaultKey(f, table) !in old(sh.net.routes))
  {
    hide Followed, NetAfter, KeyOf, RouteMode, RouteTable, FamilyOf, IsDefaultRoute, DefaultKey, Pair, RuleCommands,
      Ends;
    ghost var h0 := sh.history;
    var f, table := FamilyOf(net), RouteTable(c);
    DefaultRouteKey(net, table);
    ghost var add := RouteAdd(c.name, KeyOf(net, table));
    var ok := sh.AddRouteTable(c.name, KeyOf(net, table));
    ghost var h1 := sh.history;
    if !ok {
      Stopped(sh.env, h0, h1, [add], NetCommands(c, sh.env, net, |h0|));
      NoMain(h1, RouteFailed);
      NothingLeaks(sh.net.rules, RouteFailed, table);
      return Some(RouteFailed);
    }
    err := AddDefaultRules(sh, f, table);
    Both(sh.env, h0, h1, sh.history, [add], RuleCommands(f, table), err.None?);
  }

  lemma {:induction false} NoMain(history: seq<Command>, e: Failure)
    requires history != [] && !e.MainRuleFailed? && !IsMain(history[|history| - 1])
    ensures Ends(history, e)
  {
  }

  lemma {:induction false} NothingLeaks(rules: multiset<Rule>, e: Failure, table: int)
    requires !e.MainRuleFailed?
    ensures rules + Leaked(e, table) == rules
  {
  }

  /** One network of a peer; `err` leaves the rules as they were but for the leaked one. */
  method AddNet(sh: Shell, c: QuickConfig, net: Cidr, was: seq<Family>, ghost start: Net)
    returns (err: Option<Failure>, added: seq<Family>)
    requires sh.Valid() && RoutesAdded(sh.net, start, c.name) && Isolates(sh.net, start, was, RouteTable(c))
    modifies sh
    ensures sh.Valid() && Followed(sh.env, old(sh.history), sh.history,
              NetCommands(c, sh.env, net, |old(sh.history)|), err.None?)
    ensures RoutesAdded(sh.net, start, c.name)
    ensures err.None? ==> Isolates(sh.net, start, added, RouteTable(c))
    ensures err.None? ==>
              AsSet(added) == AsSet(was) + if RouteMode(c) == Auto && IsDefaultRoute(net) then {FamilyOf(net)} else {}
    ensures err.Some? ==> added == was && Once(was) && Ends(sh.history, err.value) && !NotCreated(err.value)
    ensures err.Some? ==>
              sh.net.rules == start.rules + RulesOf(AsSet(was), RouteTable(c)) + Leaked(err.value, RouteTable(c))
  {
    hide RouteTable, KeyOf, DefaultKey, FamilyOf, IsDefaultRoute, RulesOf, Pair, Followed, NetAfter, Ends, Leaked;
    err, added := None, was;
    ghost var before, h0 := sh.net, sh.history;
    var table := RouteTable(c);
    match RouteMode(c) {
      case Off =>
        NothingRun(sh.env, h0);
      case Explicit =>
        var ok := sh.AddRouteTable(c.name, KeyOf(net, table));
        if !ok {
          err := Some(RouteFailed);
          NoMain(sh.history, RouteFailed);
          NothingLeaks(sh.net.rules, RouteFailed, table);
        }
      case Auto =>
        if IsDefaultRoute(net) {
          var f := FamilyOf(net);
          err := AddDefault(sh, c, net);
          if err.Some? {
            return;
          }
          added := added + [f];
          AddFamily(start, before, sh.net, was, f, table);
          assert AsSet(added) == AsSet(was) + {f};
        } else {
          var ok := AddRoute(sh, c, net);
          if !ok {
            err := Some(RouteFailed);
            NoMain(sh.history, RouteFailed);
            NothingLeaks(sh.net.rules, RouteFailed, table);
          }
        }
    }
  }

  method AddPeerRoutes(sh: Shell, c: QuickConfig, nets: seq<Cidr>, was: seq<Family>, ghost start: Net)
    returns (err: Option<Failure>, added: seq<Family>)
    requires sh.Valid() && RoutesAdded(sh.net, start, c.name) && Isolates(sh.net, start, was, RouteTable(c))
    modifies sh
    ensures sh.Valid()
    ensures Followed(sh.env, old(sh.history), sh.history, RouteCommands(c, sh.env, nets, |old(sh.history)|), err.None?)
    ensures RoutesAdded(sh.net, start, c.name)
    ensures err.None? ==> Isolates(sh.net, start, added, RouteTable(c))
    ensures err.None? ==> AsSet(added) == AsSet(was) + if RouteMode(c) == Auto then DefaultFamilies(nets) else {}
    ensures err.Some? ==> Once(added) && Ends(sh.history, err.value) && !NotCreated(err.value)
    ensures err.Some? ==>
              sh.net.rules == start.rules + RulesOf(AsSet(added), RouteTable(c)) + Leaked(err.value, RouteTable(c))
  {
    hide RouteTable, RouteMode, RoutesAdded, Isolates, IsDefaultRoute, FamilyOf, RulesOf, AsSet, Once, Ends, Followed,
      NetAfter, NetCommands, Leaked;
    err, added := None, was;
    ghost var h0 := sh.history;
    NothingRun(sh.env, h0);
    for i := 0 to |nets|
      invariant sh.Valid() && Followed(sh.env, h0, sh.history, RouteCommands(c, sh.env, nets[..i], |h0|), true)
      invariant err.None? && RoutesAdded(sh.net, start, c.name)
      invariant Isolates(sh.net, start, added, RouteTable(c))
      invariant AsSet(added) == AsSet(was) + if RouteMode(c) == Auto then DefaultFamilies(nets[..i]) else {}
    {
      Snoc(nets, i);
      ghost var h1 := sh.history;
      AllRun(sh.env, h0, h1, RouteCommands(c, sh.env, nets[..i], |h0|));
      err, added := AddNet(sh, c, nets[i], added, start);
      Both(sh.env, h0, h1, sh.history, RouteCommands(c, sh.env, nets[..i], |h0|),
        NetCommands(c, sh.env, nets[i], |h1|), err.None?);
      if err.Some? {
        RoutesPrefix(c, sh.env, nets[..i + 1], nets, |h0|);
        Stopped(sh.env, h0, sh.history, RouteCommands(c, sh.env, nets[..i + 1], |h0|),
          RouteCommands(c, sh.env, nets, |h0|));
        return;
      }
    }
    Whole(nets);
  }

  method AddRoutes(sh: Shell, c: QuickConfig) returns (err: Option<Failure>, added: seq<Family>)
    requires sh.Valid()
    modifies sh
    ensures sh.Valid()
    ensures Followed(sh.env, old(sh.history), sh.history,
              RouteCommands(c, sh.env, AllNets(c.peers), |old(sh.history)|), err.None?)
    ensures RoutesAdded(sh.net, old(sh.net), c.name)
    ensures err.None? ==> Isolates(sh.net, old(sh.net), added, RouteTable(c)) && AsSet(added) == Isolated(c)
    ensures err.Some? ==> Once(added) && Ends(sh.history, err.value) && !NotCreated(err.value)
    ensures err.Some? ==>
              sh.net.rules == old(sh.net.rules) + RulesOf(AsSet(added), RouteTable(c))
                + Leaked(err.value, RouteTable(c))
  {
    hide RouteTable, RouteMode, RoutesAdded, Isolates, DefaultFamilies, RulesOf, AsSet, Once, Ends, Followed,
      NetAfter, RouteCommands, Leaked;
    ghost var start, h0 := sh.net, sh.history;
    NothingAdded(start, c.name, RouteTable(c));
    NoCommands(c, sh.env, h0);
    err, added := None, [];
    for i := 0 to |c.peers|
      invariant sh.Valid()
                && Followed(sh.env, h0, sh.history, RouteCommands(c, sh.env, AllNets(c.peers[..i]), |h0|), true)
      invariant err.None? && RoutesAdded(sh.net, start, c.name)
      invariant Isolates(sh.net, start, added, RouteTable(c))
      invariant AsSet(added) == if RouteMode(c) == Auto then DefaultFamilies(AllNets(c.peers[..i])) else {}
    {
      Snoc(c.peers, i);
      ghost var before, nets, h1 := AllNets(c.peers[..i]), c.peers[i].allowedIPs, sh.history;
      DefaultFamiliesConcat(before, nets);
      RouteCommandsConcat(c, sh.env, before, nets, |h0|);
      AllRun(sh.env, h0, h1, RouteCommands(c, sh.env, before, |h0|));
      err, added := AddPeerRoutes(sh, c, c.peers[i].allowedIPs, added, start);
      Both(sh.env, h0, h1, sh.history, RouteCommands(c, sh.env, before, |h0|), RouteCommands(c, sh.env, nets, |h1|),
        err.None?);
      if err.Some? {
        StoppedAmong(c, sh.env, h0, sh.history, before + nets, i + 1);
        return;
      }
    }
    Whole(c.peers);
  }

  /** Stopping among the routes of the first `i` peers is stopping among the routes of all of them. */
  lemma {:induction false} StoppedAmong(c: QuickConfig, env: Env, before: seq<Command>, after: seq<Command>,
                                        nets: seq<Cidr>, i: nat)
    requires i <= |c.peers| && nets == AllNets(c.peers[..i])
    requires Followed(env, before, after, RouteCommands(c, env, nets, |before|), false)
    ensures Followed(env, before, after, RouteCommands(c, env, AllNets(c.peers), |before|), false)
  {
    hide Followed, RouteCommands;
    NetsPrefix(c.peers, i);
    RoutesPrefix(c, env, nets, AllNets(c.peers), |before|);
    Stopped(env, before, after, RouteCommands(c, env, nets, |before|),
      RouteCommands(c, env, AllNets(c.peers), |before|));
  }

  lemma {:induction false} NoCommands(c: QuickConfig, env: Env, history: seq<Command>)
    ensures Followed(env, history, history, RouteCommands(c, env, AllNets([]), |history|), true)
  {
    NothingRun(env, history);
  }

  lemma {:induction false} NothingAdded(start: Net, name: string, table: int)
    ensures RoutesAdded(start, start, name) && Isolates(start, start, [], table) && AsSet([]) == {}
    ensures DefaultFamilies(AllNets([])) == {}
  {
    NoRules(table);
    assert AsSet([]) == {};
    assert start.rules + multiset{} == start.rules;
  }

  // ----- deleting rules -----

  function UndoRules(added: seq<Family>, table: int): (r: seq<Command>)
    ensures |r| == 2 * |added|
  {
    if added == [] then []
    else
      var f := added[|added| - 1];
      UndoRules(added[..|added| - 1], table) + [RuleDel(NotMark(f, table, table)), RuleDel(MainSuppressed(f))]
  }

  /** No rule has gone but some of `p`. */
  ghost predicate Fewer(was: multiset<Rule>, now: multiset<Rule>, p: multiset<Rule>) {
    was - p <= now <= was
  }

  lemma {:induction false} FewerRules(a: multiset<Rule>, b: multiset<Rule>, c: multiset<Rule>, p: multiset<Rule>,
      q: multiset<Rule>)
    requires Fewer(a, b, p) && Fewer(b, c, q)
    ensures Fewer(a, c, p + q)
  {
    forall r: Rule
      ensures (a - (p + q))[r] <= c[r] <= a[r]
    {
      assert (a - p)[r] <= b[r] && (b - q)[r] <= c[r];
    }
  }

  lemma {:induction false} MinusFewer(rules: multiset<Rule>, rule: Rule, failed: bool)
    ensures Fewer(rules, Minus(rules, rule, failed), multiset{rule})
  {
  }

  lemma {:induction false} PairIsTwo(f: Family, table: int)
    ensures Pair(f, table) == multiset{NotMark(f, table, table)} + multiset{MainSuppressed(f)}
  {
  }

  lemma {:induction false} NoMoreThanPair(rules: multiset<Rule>, f: Family, table: int, one: bool, two: bool)
    ensures Fewer(rules, Minus(Minus(rules, NotMark(f, table, table), one), MainSuppressed(f), two), Pair(f, table))
    ensures !one && !two && Pair(f, table) <= rules ==>
              Minus(Minus(rules, NotMark(f, table, table), one), MainSuppressed(f), two) == rules - Pair(f, table)
  {
    hide Fewer, Pair;
    var a, b := NotMark(f, table, table), MainSuppressed(f);
    var mid := Minus(rules, a, one);
    if Pair(f, table) <= rules {
      TwoDeletions(rules, f, table);
    }
    PairIsTwo(f, table);
    MinusFewer(rules, a, one);
    MinusFewer(mid, b, two);
    FewerRules(rules, mid, Minus(mid, b, two), multiset{a}, multiset{b});
  }

  /** Best effort: the second deletion is tried whatever becomes of the first. */
  method DelDefaultRules(sh: Shell, f: Family, table: int)
    requires sh.Valid()
    modifies sh
    ensures sh.Valid() && sh.history == old(sh.history)
              + [RuleDel(NotMark(f, table, table)), RuleDel(MainSuppressed(f))]
    ensures sh.net == old(sh.net).(rules := sh.net.rules)
    ensures sh.Quiet(|old(sh.history)|) && Pair(f, table) <= old(sh.net.rules) ==>
              sh.net.rules == old(sh.net.rules) - Pair(f, table)
    ensures Fewer(old(sh.net.rules), sh.net.rules, Pair(f, table))
  {
    hide Pair, NetAfter, Fewer, Minus;
    ghost var rules, h := sh.net.rules, |sh.history|;
    NoMoreThanPair(rules, f, table, sh.env.fails(h), sh.env.fails(h + 1));
    sh.DelRule(NotMark(f, table, table));
    sh.DelRule(MainSuppressed(f));
  }

  /** The deferred deletion of the rules that Up added. */
  method RollbackRules(sh: Shell, added: seq<Family>, table: int, ghost base: multiset<Rule>)
    requires sh.Valid() && Once(added) && sh.net.rules == base + RulesOf(AsSet(added), table)
    modifies sh
    ensures sh.Valid() && sh.history == old(sh.history) + UndoRules(added, table)
    ensures sh.net == old(sh.net).(rules := sh.net.rules)
    ensures sh.Quiet(|old(sh.history)|) ==> sh.net.rules == base
  {
    hide Pair, RulesOf, NetAfter, Fewer;
    ghost var h0 := sh.history;
    Whole(added);
    assert added[0..] == added;
    for i := 0 to |added|
      invariant sh.Valid() && sh.history == h0 + UndoRules(added[..i], table)
      invariant sh.net == old(sh.net).(rules := sh.net.rules)
      invariant sh.Quiet(|h0|) ==> sh.net.rules == base + RulesOf(AsSet(added[i..]), table)
    {
      var fam := added[i];
      ghost var rest := AsSet(added[i + 1..]);
      Snoc(added, i);
      assert fam !in rest && AsSet(added[i..]) == rest + {fam};
      RulesOfMore(rest, fam, table);
      DelDefaultRules(sh, fam, table);
    }
    NoRules(table);
    assert added[|added|..] == [];
  }

  lemma {:induction false} NoRules(table: int)
    ensures RulesOf(AsSet([]), table) == multiset{}
  {
    assert AsSet([]) == {};
  }

  /** A successful Up: the interface is ready, its routes lead to it, and each default route is isolated. */
  ghost predicate Raised(net: Net, was: Net, c: QuickConfig) {
    var table := RouteTable(c);
    && c.name !in was.links
    && net.links == was.links[c.name := Ready(c)]
    && net.rules == was.rules + RulesOf(Isolated(c), table)
    && (net.dns == was.dns || (c.dns != [] && net.dns == was.dns + {c.name}))
    && (forall k <- was.routes :: k in net.routes && net.routes[k] == was.routes[k])
    && (forall k <- net.routes :: k in was.routes || net.routes[k] == c.name)
    && (forall f <- Isolated(c) :: DefaultKey(f, table) in net.routes && net.routes[DefaultKey(f, table)] == c.name)
  }

  /** Everything as before but for what the failure leaks and, once DNS is set, the DNS entry. */
  ghost predicate RolledBack(net: Net, was: Net, name: string, e: Failure, table: int) {
    && net.links == was.links && net.routes == was.routes
    && net.rules == was.rules + Leaked(e, table)
    && (net.dns == was.dns || net.dns == was.dns + {name})
  }
}
