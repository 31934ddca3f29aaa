/**
 * The commands that wg-quick runs, one after the other, on a network where each may fail:
 * the functions around `run` of internal/wgquick/quick_linux.go.
 */
module QuickShell {
  import opened Wrappers
  import opened WgTypes
  import opened Addresses
  import opened Quick

  // ----- the network -----

  datatype Link = Link(config: Option<Config>, addresses: set<Cidr>, up: bool, mtu: int)

  /** `ip rule`: traffic without the mark uses the table; the main table is asked first, but not for defaults. */
  datatype Rule = NotMark(family: Family, mark: int, table: int) | MainSuppressed(family: Family)

  datatype RouteKey = RouteKey(family: Family, net: Cidr, table: int)

  /** `routes` gives the interface of each route; the kernel refuses a second route with the same key. */
  datatype Net = Net(links: map<string, Link>, routes: map<RouteKey, string>, rules: multiset<Rule>, dns: set<string>)

  const MAIN_TABLE := 254

  /** Every route leaves through an interface that exists. */
  ghost predicate RoutesLinked(net: Net) {
    forall k <- net.routes :: net.routes[k] in net.links
  }

  function KeyOf(c: Cidr, table: int): RouteKey {
    RouteKey(FamilyOf(c), Heard(c), table)
  }

  function DefaultKey(f: Family, table: int): RouteKey {
    RouteKey(f, if f == V4 then Cidr4(seq(4, _ => 0), 0) else Cidr6(seq(16, _ => 0), 0), table)
  }

  /** All default routes of a family are one route. */
  lemma {:induction false} DefaultRouteKey(c: Cidr, table: int)
    requires IsDefaultRoute(c)
    ensures KeyOf(c, table) == DefaultKey(FamilyOf(c), table)
  {
    match Spoken(c)
    case Cidr4(a, _) => assert MaskBytes(a, 0) == seq(4, _ => 0);
    case Cidr6(a, _) => assert MaskBytes(a, 0) == seq(16, _ => 0);
  }

  function WithLink(net: Net, name: string, link: Link): Net {
    net.(links := net.links[name := link])
  }

  /** The routes of an interface go with it. */
  function WithoutLink(net: Net, name: string): Net {
    net.(links := net.links - {name}, routes := map k | k in net.routes && net.routes[k] != name :: net.routes[k])
  }

  function Activated(l: Link, mtu: int): Link {
    l.(up := true, mtu := if mtu > 0 then mtu else l.mtu)
  }

  function WithAddress(l: Link, a: Cidr): Link {
    l.(addresses := l.addresses + {a})
  }

  // ----- commands -----

  /** Everything wg-quick asks of the system; hooks are taken to leave the network alone. */
  datatype Command =
    | Hook(line: string)
    | LinkAdd(name: string) | LinkDel(name: string) | LinkShow(name: string)
    | OpenClient | Configure(name: string, config: Config)
    | AddressAdd(name: string, address: Cidr) | LinkUp(name: string, mtu: int)
    | FindResolvconf | DNSAdd(name: string) | DNSDel(name: string)
    | RouteShow(name: string, net: Cidr) | RouteAdd(name: string, key: RouteKey)
    | RuleAdd(rule: Rule) | RuleDel(rule: Rule)

  /** What the system refuses, whatever else may make a command fail. */
  predicate Refused(net: Net, cmd: Command) {
    match cmd
    case LinkAdd(name) => name in net.links
    case LinkDel(name) => name !in net.links
    case LinkShow(name) => name !in net.links
    case Configure(name, _) => name !in net.links
    case AddressAdd(name, a) => name !in net.links || a in net.links[name].addresses
    case LinkUp(name, _) => name !in net.links
    case RouteAdd(_, key) => key in net.routes
    case RuleDel(rule) => rule !in net.rules
    case _ => false
  }

  /** What a command does that neither fails nor is refused. */
  function Effect(net: Net, cmd: Command): Net
    requires !Refused(net, cmd)
  {
    match cmd
    case LinkAdd(name) => WithLink(net, name, Link(None, {}, false, 0))
    case LinkDel(name) => WithoutLink(net, name)
    case Configure(name, config) => WithLink(net, name, net.links[name].(config := Some(config)))
    case AddressAdd(name, a) => WithLink(net, name, WithAddress(net.links[name], a))
    case LinkUp(name, mtu) => WithLink(net, name, Activated(net.links[name], mtu))
    case DNSAdd(name) => net.(dns := net.dns + {name})
    case DNSDel(name) => net.(dns := net.dns - {name})
    case RouteAdd(name, key) => net.(routes := net.routes[key := name])
    case RuleAdd(rule) => net.(rules := net.rules + multiset{rule})
    case RuleDel(rule) => net.(rules := net.rules - multiset{rule})
    case _ => net
  }

  function Do(net: Net, cmd: Command, failed: bool): Net {
    if failed || Refused(net, cmd) then net else Effect(net, cmd)
  }

  /**
   * Where wg-quick runs: the network it starts from, which commands fail, counted from the
   * first one ever run, and for which of them `ip route show` prints a route.
   */
  datatype Env = Env(first: Net, fails: nat -> bool, shown: nat -> bool)

  /** The network that a history of commands leads to. */
  function NetAfter(env: Env, history: seq<Command>): Net {
    if history == [] then env.first
    else
      var init := history[..|history| - 1];
      Do(NetAfter(env, init), history[|history| - 1], env.fails(|init|))
  }

  /** Command `j` of the history did what it is for. */
  predicate Worked(env: Env, history: seq<Command>, j: nat)
    requires j < |history|
  {
    !env.fails(j) && !Refused(NetAfter(env, history[..j]), history[j])
  }

  /** Failures of these are ignored. */
  predicate Tolerated(cmd: Command) {
    cmd.FindResolvconf? || cmd.DNSAdd? || cmd.RouteShow?
  }

  /** Command `j` is no reason to stop. */
  predicate Fine(env: Env, history: seq<Command>, j: nat)
    requires j < |history|
  {
    Tolerated(history[j]) || Worked(env, history, j)
  }

  /** The rules without one, if it is there and its deletion does not fail. */
  function Minus(rules: multiset<Rule>, rule: Rule, failed: bool): multiset<Rule> {
    if failed || rule !in rules then rules else rules - multiset{rule}
  }

  class Shell {
    const env: Env
    var history: seq<Command>
    var net: Net

    constructor (env: Env)
      ensures Valid() && this.env == env && history == [] && net == env.first
    {
      this.env, this.history, this.net := env, [], env.first;
    }

    /** The network is what the commands made of it. */
    ghost predicate Valid()
      reads this
    {
      net == NetAfter(env, history)
    }

    /** No command fails from number `n` on. */
    ghost predicate Quiet(n: nat) {
      forall k :: k >= n ==> !env.fails(k)
    }

    method Run(cmd: Command) returns (ok: bool)
      requires Valid()
      modifies this
      ensures Valid() && history == old(history) + [cmd]
      ensures ok == (!env.fails(|old(history)|) && !Refused(old(net), cmd))
      ensures net == Do(old(net), cmd, env.fails(|old(history)|))
      ensures Followed(env, old(history), history, [cmd], ok || Tolerated(cmd))
    {
      hide Followed, Refused, Do, NetAfter, Tolerated;
      OneCommand(env, history, cmd);
      ok := !env.fails(|history|) && !Refused(net, cmd);
      net := Do(net, cmd, env.fails(|history|));
      history := history + [cmd];
    }

    method AddAddress(name: string, a: Cidr) returns (ok: bool)
      requires Valid() && name in net.links
      modifies this
      ensures Valid() && history == old(history) + [AddressAdd(name, a)]
      ensures Followed(env, old(history), history, [AddressAdd(name, a)], ok)
      ensures net == if ok then WithLink(old(net), name, WithAddress(old(net.links)[name], a)) else old(net)
    {
      hide NetAfter, Followed;
      ok := Run(AddressAdd(name, a));
    }

    /** MTU and state of the interface; no MTU leaves it as it is. */
    method SetLinkUp(name: string, mtu: int) returns (ok: bool)
      requires Valid() && name in net.links
      modifies this
      ensures Valid() && history == old(history) + [LinkUp(name, mtu)]
      ensures Followed(env, old(history), history, [LinkUp(name, mtu)], ok)
      ensures net == if ok then WithLink(old(net), name, Activated(old(net.links)[name], mtu)) else old(net)
    {
      hide NetAfter, Followed;
      ok := Run(LinkUp(name, mtu));
    }

    /** Refused when there is such a route. */
    method AddRouteTable(name: string, key: RouteKey) returns (ok: bool)
      requires Valid()
      modifies this
      ensures Valid() && history == old(history) + [RouteAdd(name, key)]
      ensures Followed(env, old(history), history, [RouteAdd(name, key)], ok)
      ensures ok ==> key !in old(net.routes)
      ensures net == if ok then old(net).(routes := old(net.routes)[key := name]) else old(net)
    {
      hide NetAfter, Followed;
      ok := Run(RouteAdd(name, key));
    }

    method AddRule(rule: Rule) returns (ok: bool)
      requires Valid()
      modifies this
      ensures Valid() && history == old(history) + [RuleAdd(rule)]
      ensures Followed(env, old(history), history, [RuleAdd(rule)], ok)
      ensures ok == !env.fails(|old(history)|)
      ensures net == if ok then old(net).(rules := old(net.rules) + multiset{rule}) else old(net)
    {
      hide NetAfter, Followed;
      ok := Run(RuleAdd(rule));
    }

    method DelRule(rule: Rule)
      requires Valid()
      modifies this
      ensures Valid() && history == old(history) + [RuleDel(rule)]
      ensures net == old(net).(rules := Minus(old(net.rules), rule, env.fails(|old(history)|)))
    {
      hide NetAfter, Followed;
      var _ := Run(RuleDel(rule));
    }

    /** Hooks run in order and stop at the first that fails. */
    method RunHooks(hooks: seq<string>) returns (ok: bool)
      requires Valid()
      modifies this
      ensures Valid() && net == old(net)
      ensures Followed(env, old(history), history, Hooks(hooks), ok)
      ensures Quiet(|old(history)|) ==> ok
    {
      hide Followed, NetAfter;
      ghost var start := history;
      NothingRun(env, start);
      for i := 0 to |hooks|
        invariant Valid() && net == old(net) && |start| <= |history|
        invariant Followed(env, start, history, Hooks(hooks[..i]), true)
      {
        ghost var before := history;
        var ran := Run(Hook(hooks[i]));
        Both(env, start, before, history, Hooks(hooks[..i]), [Hook(hooks[i])], ran);
        assert Hooks(hooks[..i]) + [Hook(hooks[i])] == Hooks(hooks[..i + 1]);
        if !ran {
          Stopped(env, start, history, Hooks(hooks[..i + 1]), Hooks(hooks));
          return false;
        }
      }
      assert hooks[..|hooks|] == hooks;
      ok := true;
    }
  }

  function Hooks(hooks: seq<string>): (r: seq<Command>)
    ensures |r| == |hooks|
  {
    seq(|hooks|, i requires 0 <= i < |hooks| => Hook(hooks[i]))
  }

  // ----- following a script -----

  /**
   * Since `before`, the commands of the script were run in order: all of them when `ok`,
   * and otherwise up to the first that is not fine.
   */
  ghost predicate Followed(env: Env, before: seq<Command>, after: seq<Command>, script: seq<Command>, ok: bool) {
    && before <= after <= before + script
    && (ok ==> after == before + script && AllFine(env, after, |before|, |after|))
    && (!ok ==> && |before| < |after|
                && !Fine(env, after, |after| - 1)
                && AllFine(env, after, |before|, |after| - 1))
  }

  predicate AllFine(env: Env, history: seq<Command>, from: nat, to: nat)
    requires to <= |history|
  {
    forall j :: from <= j < to ==> Fine(env, history, j)
  }

  lemma {:induction false} FineStays(env: Env, history: seq<Command>, longer: seq<Command>, j: nat)
    requires j < |history| && history <= longer
    ensures Fine(env, longer, j) == Fine(env, history, j)
  {
    assert longer[..j] == history[..j];
  }

  lemma {:induction false} NothingRun(env: Env, history: seq<Command>)
    ensures Followed(env, history, history, [], true)
  {
  }

  /** The command works, or its failure is ignored. */
  predicate Passes(net: Net, cmd: Command, failed: bool) {
    (!failed && !Refused(net, cmd)) || Tolerated(cmd)
  }

  lemma {:induction false} OneCommand(env: Env, before: seq<Command>, cmd: Command)
    ensures var net, failed := NetAfter(env, before), env.fails(|before|);
            && NetAfter(env, before + [cmd]) == Do(net, cmd, failed)
            && Followed(env, before, before + [cmd], [cmd], Passes(net, cmd, failed))
  {
    hide Refused, Do, Tolerated;
    var after := before + [cmd];
    assert after[..|after| - 1] == before && after[..|before|] == before && after[|before|] == cmd;
  }

  /** One script after the other is the two in one. */
  lemma {:induction false} Both(
    env: Env, a: seq<Command>, b: seq<Command>, c: seq<Command>, s: seq<Command>, t: seq<Command>, ok: bool)
    requires Followed(env, a, b, s, true) && Followed(env, b, c, t, ok)
    ensures Followed(env, a, c, s + t, ok)
  {
    hide Fine;
    assert b + t == a + (s + t);
    forall j | |a| <= j < |b|
      ensures Fine(env, c, j)
    {
      FineStays(env, b, c, j);
    }
  }

  /** What stopped on the way through the first part of a script stopped on the way through all of it. */
  lemma {:induction false} Stopped(env: Env, a: seq<Command>, b: seq<Command>, s: seq<Command>, t: seq<Command>)
    requires Followed(env, a, b, s, false) && s <= t
    ensures Followed(env, a, b, t, false)
  {
    hide Fine;
    assert a + s <= a + t;
  }

  lemma {:induction false} AllRun(env: Env, before: seq<Command>, after: seq<Command>, script: seq<Command>)
    requires Followed(env, before, after, script, true)
    ensures after == before + script && |after| == |before| + |script|
  {
  }
}
