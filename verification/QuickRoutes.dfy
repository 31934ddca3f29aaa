/**
 * What a successful Up has done, read off its history and the network: which routes it added and
 * why, where the hooks stand, what became of DNS, and in which order the steps came.
 */
module QuickRoutes {
  import opened Wrappers
  import opened WgTypes
  import opened Numbers
  import opened Quick
  import opened QuickShell
  import opened QuickRuns

  // ----- the routes -----

  /** The networks of all peers. */
  function Nets(c: QuickConfig): set<Cidr> {
    set p <- c.peers, n <- p.allowedIPs :: n
  }

  function NetSet(nets: seq<Cidr>): set<Cidr> {
    set n <- nets
  }

  /** The table that the configuration names by number, or else its mark, or else 51820. */
  predicate Tabled(c: QuickConfig, table: int) {
    && (c.table == "" || c.table == "auto" ==> table == c.firewallMark.GetOr(51820))
    && (c.table != "" && c.table != "auto" && c.table != "off" ==>
          table == Atoi(c.table).GetOr(c.firewallMark.GetOr(51820)))
  }

  /** The interface was asked for a route to `net`, and it printed one or did not. */
  ghost predicate Asked(env: Env, history: seq<Command>, from: nat, name: string, net: Cidr, found: bool) {
    exists j :: from <= j < |history| && history[j] == RouteShow(name, net)
      && (found <==> !env.fails(j) && env.shown(j))
  }


  type Routes = map<RouteKey, string>

  /** All networks lead to the interface, in one table. */
  ghost predicate AllRouted(routes: Routes, was: Routes, name: string, nets: set<Cidr>, table: int) {
    && (forall k <- was :: k in routes && routes[k] == was[k])
    && (forall n <- nets :: KeyOf(n, table) in routes && routes[KeyOf(n, table)] == name
                            && KeyOf(n, table) !in was)
    && (forall k <- routes :: k in was || exists n <- nets :: k == KeyOf(n, table))
  }

  /**
   * Default routes lead to the interface in the table of their own; the other networks lead to
   * it in the main table, number 254, but for those it was found to reach already.
   */
  ghost predicate SplitRouted(routes: Routes, was: Routes, name: string, nets: set<Cidr>, table: int, env: Env,
                              history: seq<Command>, from: nat)
  {
    && (forall k <- was :: k in routes && routes[k] == was[k])
    && (forall n <- nets :: if CidrOnes(n) == 0 then KeyOf(n, table) in routes && KeyOf(n, table) !in was
                            else KeyOf(n, 254) in routes || Asked(env, history, from, name, n, true))
    && (forall k <- routes :: k in was || (routes[k] == name && exists n <- nets ::
          if CidrOnes(n) == 0 then k == KeyOf(n, table)
          else k == KeyOf(n, 254) && Asked(env, history, from, name, n, false)))
  }

  // ----- parts of a script -----

  /** A script that was followed in one go was followed in two. */
  lemma {:induction false} Apart(env: Env, a: seq<Command>, c: seq<Command>, s: seq<Command>, t: seq<Command>)
    requires Followed(env, a, c, s + t, true)
    ensures Followed(env, a, a + s, s, true) && Followed(env, a + s, c, t, true)
  {
    hide Fine;
    var b := a + s;
    assert c == b + t;
    forall j | |a| <= j < |b|
      ensures Fine(env, b, j)
    {
      FineStays(env, b, c, j);
    }
  }

  lemma {:induction false} Last(env: Env, a: seq<Command>, cmd: Command)
    requires Followed(env, a, a + [cmd], [cmd], true)
    ensures NetAfter(env, a + [cmd]) == Do(NetAfter(env, a), cmd, env.fails(|a|))
    ensures !Tolerated(cmd) ==> !env.fails(|a|) && !Refused(NetAfter(env, a), cmd)
  {
    hide Refused, Do, Tolerated;
    OneCommand(env, a, cmd);
    var after := a + [cmd];
    assert Fine(env, after, |a|);
    assert after[..|a|] == a && after[|a|] == cmd;
  }

  /** Commands that leave the routes alone. */
  ghost predicate NoRouting(script: seq<Command>) {
    forall i :: 0 <= i < |script| ==> !script[i].RouteAdd? && !script[i].LinkDel?
  }

  ghost predicate NoNaming(script: seq<Command>) {
    forall i :: 0 <= i < |script| ==> !script[i].DNSAdd? && !script[i].DNSDel?
  }

  lemma {:induction false} Untouched(env: Env, a: seq<Command>, c: seq<Command>, script: seq<Command>)
    requires Followed(env, a, c, script, true)
    ensures NoRouting(script) ==> NetAfter(env, c).routes == NetAfter(env, a).routes
    ensures NoNaming(script) ==> NetAfter(env, c).dns == NetAfter(env, a).dns
    decreases |script|
  {
    hide Followed, Refused, Tolerated, Do, NetAfter;
    AllRun(env, a, c, script);
    if script == [] {
      assert c == a;
    } else {
      var init, cmd := script[..|script| - 1], script[|script| - 1];
      assert script == init + [cmd];
      Apart(env, a, c, init, [cmd]);
      Untouched(env, a, a + init, init);
      assert c == (a + init) + [cmd];
      Last(env, a + init, cmd);
      OneUntouched(NetAfter(env, a + init), cmd, env.fails(|a + init|));
      assert cmd == script[|init|];
    }
  }

  lemma {:induction false} OneUntouched(net: Net, cmd: Command, failed: bool)
    ensures !cmd.RouteAdd? && !cmd.LinkDel? ==> Do(net, cmd, failed).routes == net.routes
    ensures !cmd.DNSAdd? && !cmd.DNSDel? ==> Do(net, cmd, failed).dns == net.dns
  {
  }

  // ----- one network after the other -----

  /** A route that was added as part of a script that was followed. */
  lemma {:induction false} RouteStep(env: Env, a: seq<Command>, name: string, key: RouteKey)
    requires Followed(env, a, a + [RouteAdd(name, key)], [RouteAdd(name, key)], true)
    ensures var net, was := NetAfter(env, a + [RouteAdd(name, key)]), NetAfter(env, a);
            key !in was.routes && net.routes == was.routes[key := name]
  {
    hide Followed, NetAfter;
    Last(env, a, RouteAdd(name, key));
  }

  lemma {:induction false} OneMoreRoute(routes: Routes, mid: Routes, was: Routes, name: string, nets: set<Cidr>,
      n: Cidr, table: int)
    requires AllRouted(mid, was, name, nets, table)
    requires KeyOf(n, table) !in mid && routes == mid[KeyOf(n, table) := name]
    ensures AllRouted(routes, was, name, nets + {n}, table)
  {
    hide KeyOf;
    assert n in nets + {n};
    forall k | k in routes
      ensures k in was || exists m <- nets + {n} :: k == KeyOf(m, table)
    {
      if k != KeyOf(n, table) && k !in was {
        var m :| m in nets && k == KeyOf(m, table);
        assert m in nets + {n};
      }
    }
  }

  lemma {:induction false} ExplicitRoutes(c: QuickConfig, env: Env, before: seq<Command>, after: seq<Command>,
      nets: seq<Cidr>)
    requires RouteMode(c) == Explicit
    requires Followed(env, before, after, RouteCommands(c, env, nets, |before|), true)
    ensures AllRouted(NetAfter(env, after).routes, NetAfter(env, before).routes, c.name, NetSet(nets), RouteTable(c))
    decreases |nets|
  {
    hide Followed, NetAfter, KeyOf, RouteTable, AllRouted, NetSet;
    AllRun(env, before, after, RouteCommands(c, env, nets, |before|));
    var was, table := NetAfter(env, before).routes, RouteTable(c);
    if nets == [] {
      NothingRouted(was, c.name, table);
      assert after == before;
    } else {
      var init, n := nets[..|nets| - 1], nets[|nets| - 1];
      var cmds := RouteCommands(c, env, init, |before|);
      var cmd := RouteAdd(c.name, KeyOf(n, table));
      Apart(env, before, after, cmds, [cmd]);
      var mid := before + cmds;
      ExplicitRoutes(c, env, before, mid, init);
      assert after == mid + [cmd];
      RouteStep(env, mid, c.name, KeyOf(n, table));
      OneMoreRoute(NetAfter(env, after).routes, NetAfter(env, mid).routes, was, c.name, NetSet(init), n, table);
      NetSetSnoc(init, n);
      assert nets == init + [n];
    }
  }

  lemma {:induction false} NothingRouted(was: Routes, name: string, table: int)
    ensures AllRouted(was, was, name, NetSet([]), table)
  {
  }

  lemma {:induction false} NetSetSnoc(init: seq<Cidr>, n: Cidr)
    ensures NetSet(init + [n]) == NetSet(init) + {n}
  {
    assert n in init + [n];
    assert forall x <- init :: x in init + [n];
  }

  // ----- auto mode -----

  lemma {:induction false} AskedStays(env: Env, a: seq<Command>, b: seq<Command>, from: nat, name: string, net: Cidr,
      found: bool)
    requires Asked(env, a, from, name, net, found) && a <= b
    ensures Asked(env, b, from, name, net, found)
  {
    var j :| from <= j < |a| && a[j] == RouteShow(name, net) && (found <==> !env.fails(j) && env.shown(j));
    assert b[j] == a[j];
  }

  /** What was so stays so while more commands are run. */
  lemma {:induction false} SplitStays(routes: Routes, was: Routes, name: string, nets: set<Cidr>, table: int, env: Env,
      a: seq<Command>, b: seq<Command>, from: nat)
    requires SplitRouted(routes, was, name, nets, table, env, a, from) && a <= b
    ensures SplitRouted(routes, was, name, nets, table, env, b, from)
  {
    hide KeyOf, Asked;
    forall n, found | Asked(env, a, from, name, n, found)
      ensures Asked(env, b, from, name, n, found)
    {
      AskedStays(env, a, b, from, name, n, found);
    }
  }

  /** One more network that led to a route. */
  lemma {:induction false} SplitMore(routes: Routes, mid: Routes, was: Routes, name: string, nets: set<Cidr>,
      n: Cidr, table: int,
      env: Env, history: seq<Command>, from: nat)
    requires SplitRouted(mid, was, name, nets, table, env, history, from)
    requires var key := if CidrOnes(n) == 0 then KeyOf(n, table) else KeyOf(n, 254);
             key !in mid && routes == mid[key := name]
    requires CidrOnes(n) != 0 ==> Asked(env, history, from, name, n, false)
    ensures SplitRouted(routes, was, name, nets + {n}, table, env, history, from)
  {
    hide KeyOf, Asked;
    assert n in nets + {n};
    forall k | k in routes && k !in was
      ensures routes[k] == name
      ensures exists m <- nets + {n} :: if CidrOnes(m) == 0 then k == KeyOf(m, table)
                else k == KeyOf(m, 254) && Asked(env, history, from, name, m, false)
    {
      if k in mid {
        var m :| m in nets && if CidrOnes(m) == 0 then k == KeyOf(m, table)
          else k == KeyOf(m, 254) && Asked(env, history, from, name, m, false);
        assert m in nets + {n};
      }
    }
  }

  /** One more network that the interface reaches already. */
  lemma {:induction false} SplitFound(routes: Routes, was: Routes, name: string, nets: set<Cidr>, n: Cidr, table: int,
      env: Env, history: seq<Command>, from: nat)
    requires SplitRouted(routes, was, name, nets, table, env, history, from)
    requires CidrOnes(n) != 0 && Asked(env, history, from, name, n, true)
    ensures SplitRouted(routes, was, name, nets + {n}, table, env, history, from)
  {
    hide KeyOf, Asked;
    forall k | k in routes && k !in was
      ensures exists m <- nets + {n} :: if CidrOnes(m) == 0 then k == KeyOf(m, table)
                else k == KeyOf(m, 254) && Asked(env, history, from, name, m, false)
    {
      var m :| m in nets && if CidrOnes(m) == 0 then k == KeyOf(m, table)
        else k == KeyOf(m, 254) && Asked(env, history, from, name, m, false);
      assert m in nets + {n};
    }
  }

  lemma {:induction false} AddUntouched(f: Family, table: int)
    ensures NoRouting(RuleCommands(f, table))
  {
  }

  lemma {:induction false} DefaultStep(c: QuickConfig, env: Env, mid: seq<Command>, after: seq<Command>, n: Cidr)
    requires RouteMode(c) == Auto && IsDefaultRoute(n)
    requires Followed(env, mid, after, NetCommands(c, env, n, |mid|), true)
    ensures var key := KeyOf(n, RouteTable(c));
            && key !in NetAfter(env, mid).routes
            && NetAfter(env, after).routes == NetAfter(env, mid).routes[key := c.name]
  {
    hide Followed, NetAfter, KeyOf, RouteTable, RuleCommands, NoRouting, FamilyOf;
    var add, rules := RouteAdd(c.name, KeyOf(n, RouteTable(c))), RuleCommands(FamilyOf(n), RouteTable(c));
    Apart(env, mid, after, [add], rules);
    RouteStep(env, mid, c.name, KeyOf(n, RouteTable(c)));
    AddUntouched(FamilyOf(n), RouteTable(c));
    Untouched(env, mid + [add], after, rules);
  }

  /** A network that is no default route: it is asked for, and a route is added if none is printed. */
  lemma {:induction false} OrdinaryStep(c: QuickConfig, env: Env, mid: seq<Command>, after: seq<Command>, n: Cidr)
    requires RouteMode(c) == Auto && !IsDefaultRoute(n)
    requires Followed(env, mid, after, NetCommands(c, env, n, |mid|), true)
    ensures var found := !env.fails(|mid|) && env.shown(|mid|);
            && Asked(env, after, |mid|, c.name, n, found)
            && (found ==> NetAfter(env, after).routes == NetAfter(env, mid).routes)
            && (!found ==> KeyOf(n, 254) !in NetAfter(env, mid).routes)
            && (!found ==> NetAfter(env, after).routes == NetAfter(env, mid).routes[KeyOf(n, 254) := c.name])
  {
    hide Followed, NetAfter, KeyOf, RouteTable, NoRouting, FamilyOf;
    var show, add := RouteShow(c.name, n), RouteAdd(c.name, KeyOf(n, 254));
    AllRun(env, mid, after, NetCommands(c, env, n, |mid|));
    assert after[|mid|] == show;
    ShowStays(show);
    if !env.fails(|mid|) && env.shown(|mid|) {
      Untouched(env, mid, after, [show]);
    } else {
      assert [show] + [add] == [show, add];
      Apart(env, mid, after, [show], [add]);
      Untouched(env, mid, mid + [show], [show]);
      assert after == (mid + [show]) + [add];
      RouteStep(env, mid + [show], c.name, KeyOf(n, 254));
    }
  }

  lemma {:induction false} ShowStays(show: Command)
    requires show.RouteShow?
    ensures NoRouting([show])
  {
  }

  lemma {:induction false} AskedFrom(env: Env, history: seq<Command>, from: nat, later: nat, name: string, net: Cidr,
      found: bool)
    requires Asked(env, history, later, name, net, found) && from <= later
    ensures Asked(env, history, from, name, net, found)
  {
  }

  lemma {:induction false} DefaultIsWhole(n: Cidr)
    ensures IsDefaultRoute(n) <==> CidrOnes(n) == 0
  {
  }

  lemma {:induction false} AutoStep(c: QuickConfig, env: Env, from: nat, mid: seq<Command>, after: seq<Command>,
      was: Routes, nets: set<Cidr>, n: Cidr)
    requires RouteMode(c) == Auto && from <= |mid|
    requires Followed(env, mid, after, NetCommands(c, env, n, |mid|), true)
    requires SplitRouted(NetAfter(env, mid).routes, was, c.name, nets, RouteTable(c), env, mid, from)
    ensures SplitRouted(NetAfter(env, after).routes, was, c.name, nets + {n}, RouteTable(c), env, after, from)
  {
    hide Followed, NetAfter, KeyOf, RouteTable, SplitRouted, Asked, NetCommands, IsDefaultRoute;
    var routes, table := NetAfter(env, after).routes, RouteTable(c);
    AllRun(env, mid, after, NetCommands(c, env, n, |mid|));
    SplitStays(NetAfter(env, mid).routes, was, c.name, nets, table, env, mid, after, from);
    DefaultIsWhole(n);
    if IsDefaultRoute(n) {
      DefaultStep(c, env, mid, after, n);
      SplitMore(routes, NetAfter(env, mid).routes, was, c.name, nets, n, table, env, after, from);
    } else {
      var found := !env.fails(|mid|) && env.shown(|mid|);
      OrdinaryStep(c, env, mid, after, n);
      AskedFrom(env, after, from, |mid|, c.name, n, found);
      if found {
        SplitFound(routes, was, c.name, nets, n, table, env, after, from);
      } else {
        SplitMore(routes, NetAfter(env, mid).routes, was, c.name, nets, n, table, env, after, from);
      }
    }
  }

  lemma {:induction false} AutoRoutes(c: QuickConfig, env: Env, before: seq<Command>, after: seq<Command>,
      nets: seq<Cidr>)
    requires RouteMode(c) == Auto
    requires Followed(env, before, after, RouteCommands(c, env, nets, |before|), true)
    ensures SplitRouted(NetAfter(env, after).routes, NetAfter(env, before).routes, c.name, NetSet(nets), RouteTable(c),
              env, after, |before|)
    decreases |nets|
  {
    hide Followed, NetAfter, KeyOf, RouteTable, SplitRouted, NetSet, NetCommands, RouteMode;
    AllRun(env, before, after, RouteCommands(c, env, nets, |before|));
    var was, table := NetAfter(env, before).routes, RouteTable(c);
    if nets == [] {
      NothingSplit(was, c.name, table, env, before, |before|);
      assert after == before;
    } else {
      var init, n := nets[..|nets| - 1], nets[|nets| - 1];
      var cmds := RouteCommands(c, env, init, |before|);
      var mid := before + cmds;
      Apart(env, before, after, cmds, NetCommands(c, env, n, |before| + |cmds|));
      AutoRoutes(c, env, before, mid, init);
      AutoStep(c, env, |before|, mid, after, was, NetSet(init), n);
      NetSetSnoc(init, n);
      assert nets == init + [n];
    }
  }

  lemma {:induction false} NothingSplit(was: Routes, name: string, table: int, env: Env, history: seq<Command>,
      from: nat)
    ensures SplitRouted(was, was, name, NetSet([]), table, env, history, from)
  {
  }

  // ----- the whole of Up -----

  lemma {:induction false} AllNetsAre(ps: seq<QuickPeer>, n: Cidr)
    ensures n in AllNets(ps) <==> exists p <- ps :: n in p.allowedIPs
  {
    if ps == [] {
    } else {
      var init, last := ps[..|ps| - 1], ps[|ps| - 1];
      AllNetsAre(init, n);
      assert ps == init + [last];
    }
  }

  lemma {:induction false} NetsAre(c: QuickConfig)
    ensures NetSet(AllNets(c.peers)) == Nets(c)
  {
    forall n: Cidr
      ensures n in NetSet(AllNets(c.peers)) <==> n in Nets(c)
    {
      AllNetsAre(c.peers, n);
    }
  }

  lemma {:induction false} TableIs(c: QuickConfig)
    ensures Tabled(c, RouteTable(c))
  {
    hide Atoi;
  }

  /** What a successful Up does to the routes, by what the configuration says of the table. */
  ghost predicate Routed(c: QuickConfig, env: Env, before: seq<Command>, after: seq<Command>, net: Net, was: Net) {
    && (c.table == "off" ==> net.routes == was.routes)
    && (c.table != "" && c.table != "auto" && c.table != "off" ==>
          exists table :: Tabled(c, table) && AllRouted(net.routes, was.routes, c.name, Nets(c), table))
    && (c.table == "" || c.table == "auto" ==>
          exists table :: Tabled(c, table)
            && SplitRouted(net.routes, was.routes, c.name, Nets(c), table, env, after, |before|))
  }

  lemma {:induction false} RoutesRouted(c: QuickConfig, env: Env, before: seq<Command>, after: seq<Command>)
    requires Followed(env, before, after, RouteCommands(c, env, AllNets(c.peers), |before|), true)
    ensures Routed(c, env, before, after, NetAfter(env, after), NetAfter(env, before))
  {
    hide Followed, NetAfter, RouteTable, SplitRouted, AllRouted, RouteCommands, Tabled, AllNets, Nets;
    NetsAre(c);
    TableIs(c);
    match RouteMode(c)
    case Off => OffRoutes(c, env, before, after, AllNets(c.peers));
    case Explicit => ExplicitRoutes(c, env, before, after, AllNets(c.peers));
    case Auto => AutoRoutes(c, env, before, after, AllNets(c.peers));
  }

  lemma {:induction false} OffRoutes(c: QuickConfig, env: Env, before: seq<Command>, after: seq<Command>,
      nets: seq<Cidr>)
    requires RouteMode(c) == Off && Followed(env, before, after, RouteCommands(c, env, nets, |before|), true)
    ensures NetAfter(env, after).routes == NetAfter(env, before).routes
  {
    hide Followed, NetAfter;
    NoCommandsOff(c, env, nets, |before|);
    AllRun(env, before, after, []);
    assert after == before;
  }

  lemma {:induction false} NoCommandsOff(c: QuickConfig, env: Env, nets: seq<Cidr>, at: nat)
    requires RouteMode(c) == Off
    ensures RouteCommands(c, env, nets, at) == []
  {
    if nets == [] {
    } else {
      NoCommandsOff(c, env, nets[..|nets| - 1], at);
    }
  }

  // ----- hooks, DNS and the order of the steps -----

  /** The first and the last commands are the hooks, in order, and there are no others. */
  ghost predicate Hooked(ran: seq<Command>, first: seq<string>, last: seq<string>) {
    && |ran| >= |first| + |last|
    && (forall i :: 0 <= i < |first| ==> ran[i] == Hook(first[i]))
    && (forall i :: 0 <= i < |last| ==> ran[|ran| - |last| + i] == Hook(last[i]))
    && (forall i :: |first| <= i < |ran| - |last| ==> !ran[i].Hook?)
  }

  /** The entry is there when there is something to enter and neither finding resolvconf nor running it fails. */
  ghost predicate Named(c: QuickConfig, env: Env, before: seq<Command>, after: seq<Command>, net: Net, was: Net) {
    if c.dns == [] then net.dns == was.dns
    else exists j :: |before| <= j < |after| && after[j] == FindResolvconf && NamedAt(c, env, after, j, net, was)
  }

  ghost predicate NamedAt(c: QuickConfig, env: Env, after: seq<Command>, j: nat, net: Net, was: Net) {
    if env.fails(j) then net.dns == was.dns
    else j + 1 < |after| && after[j + 1] == DNSAdd(c.name)
         && net.dns == if env.fails(j + 1) then was.dns else was.dns + {c.name}
  }

  /** Commands that neither route nor name. */
  predicate Plain(cmd: Command) {
    !cmd.RouteAdd? && !cmd.RouteShow? && !cmd.RuleAdd? && !cmd.DNSAdd?
  }

  /** The interface is made, configured, given its addresses in order, and up, before anything is routed. */
  ghost predicate Ordered(c: QuickConfig, ran: seq<Command>, at: nat) {
    && at + 4 + |c.addresses| <= |ran|
    && ran[at] == LinkAdd(c.name) && ran[at + 1] == OpenClient && ran[at + 2] == Configure(c.name, DeviceConfig(c))
    && (forall i :: 0 <= i < |c.addresses| ==> ran[at + 3 + i] == AddressAdd(c.name, c.addresses[i]))
    && ran[at + 3 + |c.addresses|] == LinkUp(c.name, if c.mtu > 0 then c.mtu else 0)
    && (forall i :: 0 <= i < at + 3 + |c.addresses| ==>
          Plain(ran[i]))
  }

  lemma {:induction false} QuietHooks(hooks: seq<string>)
    ensures NoRouting(Hooks(hooks)) && NoNaming(Hooks(hooks))
  {
  }

  lemma {:induction false} QuietStart(c: QuickConfig)
    ensures NoRouting(Hooks(c.preUp) + [LinkAdd(c.name)]) && NoNaming(Hooks(c.preUp) + [LinkAdd(c.name)])
    ensures NoRouting(LinkCommands(c)) && NoNaming(LinkCommands(c))
  {
    hide DeviceConfig;
  }

  ghost predicate NoHooks(script: seq<Command>) {
    forall i :: 0 <= i < |script| ==> !script[i].Hook?
  }

  lemma {:induction false} QuietNet(c: QuickConfig, env: Env, n: Cidr, at: nat)
    ensures NoNaming(NetCommands(c, env, n, at)) && NoHooks(NetCommands(c, env, n, at))
  {
    hide KeyOf, RouteTable, IsDefaultRoute, FamilyOf, RouteMode;
  }

  lemma {:induction false} QuietBoth(a: seq<Command>, b: seq<Command>)
    ensures NoNaming(a) && NoNaming(b) ==> NoNaming(a + b)
    ensures NoHooks(a) && NoHooks(b) ==> NoHooks(a + b)
  {
  }

  lemma {:induction false} QuietRoutes(c: QuickConfig, env: Env, nets: seq<Cidr>, at: nat)
    ensures NoNaming(RouteCommands(c, env, nets, at)) && NoHooks(RouteCommands(c, env, nets, at))
  {
    hide NetCommands, NoNaming, NoHooks;
    if nets == [] {
      QuietNothing();
    } else {
      var before := RouteCommands(c, env, nets[..|nets| - 1], at);
      QuietRoutes(c, env, nets[..|nets| - 1], at);
      QuietNet(c, env, nets[|nets| - 1], at + |before|);
      QuietBoth(before, NetCommands(c, env, nets[|nets| - 1], at + |before|));
    }
  }

  lemma {:induction false} QuietNothing()
    ensures NoNaming([]) && NoHooks([])
  {
  }

  lemma {:induction false} DNSQuiet(c: QuickConfig, env: Env, at: nat)
    ensures NoRouting(DNSCommands(c, env, at))
  {
  }

  /** What setting up the DNS entry comes to. */
  lemma {:induction false} DNSNamed(c: QuickConfig, env: Env, a: seq<Command>, b: seq<Command>)
    requires Followed(env, a, b, DNSCommands(c, env, |a|), true)
    ensures Named(c, env, a, b, NetAfter(env, b), NetAfter(env, a))
  {
    hide Followed, NetAfter;
    AllRun(env, a, b, DNSCommands(c, env, |a|));
    if c.dns == [] {
      assert b == a;
    } else {
      var find, add := FindResolvconf, DNSAdd(c.name);
      assert b[|a|] == find;
      if env.fails(|a|) {
        Last(env, a, find);
        assert NamedAt(c, env, b, |a|, NetAfter(env, b), NetAfter(env, a));
      } else {
        assert [find] + [add] == [find, add];
        Apart(env, a, b, [find], [add]);
        Last(env, a, find);
        assert b == (a + [find]) + [add];
        Last(env, a + [find], add);
        assert NamedAt(c, env, b, |a|, NetAfter(env, b), NetAfter(env, a));
      }
    }
  }

  lemma {:induction false} RoutedLater(c: QuickConfig, env: Env, a: seq<Command>, b: seq<Command>, before: seq<Command>,
      after: seq<Command>, net: Net, was: Net)
    requires Routed(c, env, a, b, net, was) && |before| <= |a| && b <= after
    ensures Routed(c, env, before, after, net, was)
  {
    hide SplitRouted, AllRouted, Tabled, Nets;
    if c.table == "" || c.table == "auto" {
      var table :| Tabled(c, table) && SplitRouted(net.routes, was.routes, c.name, Nets(c), table, env, b, |a|);
      SplitStays(net.routes, was.routes, c.name, Nets(c), table, env, b, after, |a|);
      SplitFrom(net.routes, was.routes, c.name, Nets(c), table, env, after, |before|, |a|);
    }
  }

  lemma {:induction false} SplitFrom(routes: Routes, was: Routes, name: string, nets: set<Cidr>, table: int, env: Env,
      history: seq<Command>, from: nat, later: nat)
    requires SplitRouted(routes, was, name, nets, table, env, history, later) && from <= later
    ensures SplitRouted(routes, was, name, nets, table, env, history, from)
  {
    hide KeyOf, Asked;
    forall n, found | Asked(env, history, later, name, n, found)
      ensures Asked(env, history, from, name, n, found)
    {
      AskedFrom(env, history, from, later, name, n, found);
    }
  }

  lemma {:induction false} NamedLater(c: QuickConfig, env: Env, a: seq<Command>, b: seq<Command>, before: seq<Command>,
      after: seq<Command>, net: Net, was: Net)
    requires Named(c, env, a, b, net, was) && |before| <= |a| && b <= after
    ensures Named(c, env, before, after, net, was)
  {
    if c.dns != [] {
      var j :| |a| <= j < |b| && b[j] == FindResolvconf && NamedAt(c, env, b, j, net, was);
      assert after[j] == b[j] && NamedAt(c, env, after, j, net, was);
    }
  }

  /** Only routes are looked at. */
  lemma {:induction false} Routing(c: QuickConfig, env: Env, before: seq<Command>, after: seq<Command>, net: Net,
      was: Net, net': Net, was': Net)
    requires Routed(c, env, before, after, net, was) && net.routes == net'.routes && was.routes == was'.routes
    ensures Routed(c, env, before, after, net', was')
  {
    hide SplitRouted, AllRouted, Tabled, Nets;
  }

  /** Only DNS entries are looked at. */
  lemma {:induction false} Naming(c: QuickConfig, env: Env, before: seq<Command>, after: seq<Command>, net: Net,
      was: Net, net': Net, was': Net)
    requires Named(c, env, before, after, net, was) && net.dns == net'.dns && was.dns == was'.dns
    ensures Named(c, env, before, after, net', was')
  {
    if c.dns != [] {
      var j :| |before| <= j < |after| && after[j] == FindResolvconf && NamedAt(c, env, after, j, net, was);
      assert NamedAt(c, env, after, j, net', was');
    }
  }

  /** All that a successful Up has done. */
  ghost predicate Done(c: QuickConfig, env: Env, before: seq<Command>, after: seq<Command>, net: Net, was: Net) {
    && before <= after
    && Routed(c, env, before, after, net, was)
    && Named(c, env, before, after, net, was)
    && Hooked(after[|before|..], c.preUp, c.postUp)
    && Ordered(c, after[|before|..], |c.preUp|)
  }

  lemma {:induction false} LinkShape(c: QuickConfig)
    ensures var s := LinkCommands(c);
            && |s| == 3 + |c.addresses| && NoHooks(s)
            && s[0] == OpenClient && s[1] == Configure(c.name, DeviceConfig(c))
            && (forall i :: 0 <= i < |c.addresses| ==> s[2 + i] == AddressAdd(c.name, c.addresses[i]))
            && s[2 + |c.addresses|] == LinkUp(c.name, if c.mtu > 0 then c.mtu else 0)
  {
    hide DeviceConfig;
  }

  lemma {:induction false} DNSNoHooks(c: QuickConfig, env: Env, at: nat)
    ensures NoHooks(DNSCommands(c, env, at))
  {
  }

  /** Hooks, the new interface, its settings, names and routes, hooks. */
  lemma {:induction false} ScriptParts(c: QuickConfig, env: Env, at: nat) returns (rest: seq<Command>)
    ensures UpCommands(c, env, at) == Hooks(c.preUp) + [LinkAdd(c.name)] + LinkCommands(c) + rest + Hooks(c.postUp)
    ensures NoHooks(rest)
  {
    hide DeviceConfig, LinkCommands, DNSCommands, RouteCommands, AllNets, NoHooks, Hooks, NoNaming;
    var start, link := Hooks(c.preUp) + [LinkAdd(c.name)], LinkCommands(c);
    var h1 := at + |start|;
    var dns := DNSCommands(c, env, h1 + |link|);
    var routes := RouteCommands(c, env, AllNets(c.peers), h1 + |link + dns|);
    DNSNoHooks(c, env, h1 + |link|);
    QuietRoutes(c, env, AllNets(c.peers), h1 + |link + dns|);
    QuietBoth(dns, routes);
    rest := dns + routes;
    Five(start, link, dns, routes, Hooks(c.postUp));
  }

  lemma {:induction false} Five<T>(a: seq<T>, b: seq<T>, c: seq<T>, d: seq<T>, e: seq<T>)
    ensures a + (b + c + d + e) == a + b + (c + d) + e
  {
  }

  lemma {:induction false} HooksShape(c: QuickConfig, env: Env, at: nat)
    ensures Hooked(UpCommands(c, env, at), c.preUp, c.postUp)
  {
    hide DeviceConfig, LinkCommands, Hooks, Hooked, UpCommands;
    var first, add, link, last := Hooks(c.preUp), [LinkAdd(c.name)], LinkCommands(c), Hooks(c.postUp);
    var rest := ScriptParts(c, env, at);
    LinkShape(c);
    QuietBoth(add, link);
    QuietBoth(add + link, rest);
    Between(first, add + link + rest, last, c.preUp, c.postUp);
    Inside(first, add, link, rest, last);
  }

  lemma {:induction false} Inside<T>(a: seq<T>, b: seq<T>, c: seq<T>, d: seq<T>, e: seq<T>)
    ensures a + (b + c + d) + e == a + b + c + d + e
  {
  }

  lemma {:induction false} OrderShape(c: QuickConfig, env: Env, at: nat)
    ensures Ordered(c, UpCommands(c, env, at), |c.preUp|)
  {
    hide DeviceConfig, LinkCommands, Hooks, UpCommands;
    var first, add, link, last := Hooks(c.preUp), [LinkAdd(c.name)], LinkCommands(c), Hooks(c.postUp);
    var rest := ScriptParts(c, env, at);
    LinkShape(c);
    HooksArePlain(c.preUp);
    Middle(first, add, link, rest, last);
    var s := UpCommands(c, env, at);
    forall i | 0 <= i < |first| + 3 + |c.addresses|
      ensures Plain(s[i])
    {
      if i > |first| {
        assert s[|first| + 1 + (i - |first| - 1)] == link[i - |first| - 1];
        PlainLink(c, i - |first| - 1);
      }
    }
    forall i | 0 <= i < |c.addresses|
      ensures s[|first| + 3 + i] == AddressAdd(c.name, c.addresses[i])
    {
      assert s[|first| + 1 + (2 + i)] == link[2 + i];
    }
    assert s[|first| + 1 + 0] == link[0] && s[|first| + 1 + 1] == link[1];
    assert s[|first| + 1 + (2 + |c.addresses|)] == link[2 + |c.addresses|];
  }

  lemma {:induction false} PlainLink(c: QuickConfig, i: nat)
    requires i < 2 + |c.addresses|
    ensures |LinkCommands(c)| == 3 + |c.addresses| && Plain(LinkCommands(c)[i])
  {
    hide DeviceConfig, LinkCommands;
    LinkShape(c);
    if i >= 2 {
      assert LinkCommands(c)[2 + (i - 2)] == AddressAdd(c.name, c.addresses[i - 2]);
    }
  }

  lemma {:induction false} HooksArePlain(hooks: seq<string>)
    ensures |Hooks(hooks)| == |hooks| && forall i :: 0 <= i < |hooks| ==> Plain(Hooks(hooks)[i])
  {
  }

  lemma {:induction false} Between(first: seq<Command>, middle: seq<Command>, last: seq<Command>, pre: seq<string>,
      post: seq<string>)
    requires first == Hooks(pre) && last == Hooks(post) && NoHooks(middle)
    ensures Hooked(first + middle + last, pre, post)
  {
  }

  lemma {:induction false} Middle<T>(a: seq<T>, b: seq<T>, c: seq<T>, d: seq<T>, e: seq<T>)
    requires |b| == 1
    ensures var s := a + b + c + d + e;
            && s[|a|] == b[0]
            && (forall i :: 0 <= i < |a| ==> s[i] == a[i])
            && (forall i :: 0 <= i < |c| ==> s[|a| + 1 + i] == c[i])
  {
  }

  /** A run of all commands of Up has the routes, the DNS entry, the hooks and the order it should have. */
  lemma {:induction false} UpDoes(c: QuickConfig, env: Env, before: seq<Command>, after: seq<Command>)
    requires Followed(env, before, after, UpCommands(c, env, |before|), true)
    ensures Done(c, env, before, after, NetAfter(env, after), NetAfter(env, before))
  {
    hide Followed, NetAfter, LinkCommands, DNSCommands, RouteCommands, AllNets, Hooks, NoRouting, NoNaming, NoHooks,
      Routed, Named, Hooked, Ordered, DeviceConfig;
    var start, link := Hooks(c.preUp) + [LinkAdd(c.name)], LinkCommands(c);
    var h1 := before + start;
    var dns := DNSCommands(c, env, |h1| + |link|);
    var h2 := h1 + link;
    var h3 := h2 + dns;
    var routes, last := RouteCommands(c, env, AllNets(c.peers), |h3|), Hooks(c.postUp);
    var h4 := h3 + routes;
    AllRun(env, before, after, UpCommands(c, env, |before|));
    Apart(env, before, after, start, RaiseCommands(c, env, |before| + |start|));
    assert RaiseCommands(c, env, |h1|) == link + (dns + (routes + last));
    Apart(env, h1, after, link, dns + (routes + last));
    Apart(env, h2, after, dns, routes + last);
    Apart(env, h3, after, routes, last);
    QuietStart(c);
    Untouched(env, before, h1, start);
    Untouched(env, h1, h2, link);
    DNSQuiet(c, env, |h2|);
    Untouched(env, h2, h3, dns);
    DNSNamed(c, env, h2, h3);
    QuietRoutes(c, env, AllNets(c.peers), |h3|);
    Untouched(env, h3, h4, routes);
    RoutesRouted(c, env, h3, h4);
    QuietHooks(c.postUp);
    Untouched(env, h4, after, last);
    RoutedLater(c, env, h3, h4, before, after, NetAfter(env, h4), NetAfter(env, h3));
    NamedLater(c, env, h2, h3, before, after, NetAfter(env, h3), NetAfter(env, h2));
    var net, was := NetAfter(env, after), NetAfter(env, before);
    Routing(c, env, before, after, NetAfter(env, h4), NetAfter(env, h3), net, was);
    Naming(c, env, before, after, NetAfter(env, h3), NetAfter(env, h2), net, was);
    HooksShape(c, env, |before|);
    OrderShape(c, env, |before|);
    assert after[|before|..] == UpCommands(c, env, |before|);
  }

  // ----- the interface -----

  predicate Automatic(c: QuickConfig) {
    c.table == "" || c.table == "auto"
  }

  /** A family is isolated when the table is chosen automatically and a peer has its default route. */
  lemma {:induction false} IsolatedExactly(c: QuickConfig, f: Family)
    ensures f in Isolated(c) <==>
              Automatic(c) && exists n <- Nets(c) :: CidrOnes(n) == 0 && f == if Unmap(CidrIP(n)).IP4? then V4 else V6
  {
    hide Nets, Mapped, DefaultFamilies;
    NetsAre(c);
    DefaultsAre(AllNets(c.peers), f);
  }

  lemma {:induction false} FamilyIs(n: Cidr)
    ensures FamilyOf(n) == if Unmap(CidrIP(n)).IP4? then V4 else V6
  {
  }

  lemma {:induction false} DefaultsAre(nets: seq<Cidr>, f: Family)
    ensures f in DefaultFamilies(nets) <==>
              exists n <- NetSet(nets) :: CidrOnes(n) == 0 && f == if Unmap(CidrIP(n)).IP4? then V4 else V6
  {
    hide FamilyOf, Unmap;
    if nets == [] {
    } else {
      var init, n := nets[..|nets| - 1], nets[|nets| - 1];
      DefaultsAre(init, f);
      NetSetSnoc(init, n);
      assert nets == init + [n];
      FamilyIs(n);
      DefaultIsWhole(n);
      assert n in NetSet(nets);
    }
  }

  lemma {:induction false} AddressesAre(addresses: seq<Cidr>)
    ensures AddressSet(addresses) == set a <- addresses
  {
    if addresses == [] {
    } else {
      var init, last := addresses[..|addresses| - 1], addresses[|addresses| - 1];
      AddressesAre(init);
      assert addresses == init + [last];
    }
  }

  /**
   * The interface of a successful Up is up, with the addresses, the length of packets, the keys, the port and
   * the peers of the file, and with the mark of the file unless a default route is isolated.
   */
  lemma {:induction false} ReadyMeans(c: QuickConfig)
    ensures var link := Ready(c);
            && link.up && link.addresses == (set a <- c.addresses) && link.mtu == (if c.mtu > 0 then c.mtu else 0)
            && link.config.Some?
    ensures var cfg := Ready(c).config.value;
            && cfg.privateKey == c.privateKey && cfg.listenPort == c.listenPort && cfg.replacePeers
            && AllCarried(cfg.peers, c.peers)
            && cfg.firewallMark ==
               if Automatic(c) && exists n <- Nets(c) :: CidrOnes(n) == 0
               then Some(c.firewallMark.GetOr(51820)) else c.firewallMark
  {
    hide Nets, AllNets, EntriesOf, AddressSet, AllCarried, Unmap, Isolated;
    EntriesCarry(c.peers);
    AddressesAre(c.addresses);
    IsolatedExactly(c, V4);
    IsolatedExactly(c, V6);
    forall f <- Isolated(c)
      ensures f == V4 || f == V6
    {
    }
    assert Automatic(c) ==> RouteTable(c) == c.firewallMark.GetOr(51820);
  }
}
