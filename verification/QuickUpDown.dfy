/** What wg-quick up and down leave behind, for every place where a command may fail. */
module QuickUpDown {
  import opened Wrappers
  import opened WgTypes
  import opened Seqs
  import opened Quick
  import opened QuickShell
  import opened QuickRuns
  import opened QuickRoutes

  // ----- up -----

  /** The routes of a new interface disappear with it. */
  lemma {:induction false} DroppedRoutes(net: Net, was: Net, name: string)
    requires RoutesLinked(was) && name !in was.links
    requires forall k <- was.routes :: k in net.routes && net.routes[k] == was.routes[k]
    requires forall k <- net.routes :: k in was.routes || net.routes[k] == name
    ensures WithoutLink(net, name).routes == was.routes
  {
    var after := WithoutLink(net, name).routes;
    forall k | k in was.routes
      ensures k in after
    {
      assert was.routes[k] in was.links;
    }
  }

  /** The steps after the interface exists, with the families whose rules were added. */
  method Raise(sh: Shell, c: QuickConfig) returns (err: Option<Failure>, added: seq<Family>)
    requires sh.Valid() && c.name in sh.net.links && sh.net.links[c.name] == Link(None, {}, false, 0)
    modifies sh
    ensures sh.Valid()
    ensures Followed(sh.env, old(sh.history), sh.history, RaiseCommands(c, sh.env, |old(sh.history)|), err.None?)
    ensures c.name in sh.net.links && sh.net.links - {c.name} == old(sh.net.links) - {c.name}
    ensures sh.net.dns == old(sh.net.dns) || (c.dns != [] && sh.net.dns == old(sh.net.dns) + {c.name})
    ensures forall k <- old(sh.net.routes) :: k in sh.net.routes && sh.net.routes[k] == old(sh.net.routes)[k]
    ensures forall k <- sh.net.routes :: k in old(sh.net.routes) || sh.net.routes[k] == c.name
    ensures err.None? ==> sh.net.links[c.name] == Ready(c)
    ensures err.None? ==> Isolates(sh.net, old(sh.net), added, RouteTable(c)) && AsSet(added) == Isolated(c)
    ensures err.Some? ==> Once(added) && Ends(sh.history, err.value) && !NotCreated(err.value)
    ensures err.Some? ==>
              sh.net.rules == old(sh.net.rules) + RulesOf(AsSet(added), RouteTable(c))
                + Leaked(err.value, RouteTable(c))
  {
    hide RouteTable, Isolated, Ready, RulesOf, AsSet, Isolates, Once, Followed, NetAfter, Ends, SetupCommands,
      RouteCommands;
    ghost var was, h0, env := sh.net, sh.history, sh.env;
    ghost var setup, all := SetupCommands(c, env, |h0|), RaiseCommands(c, env, |h0|);
    added := [];
    err := SetUp(sh, c);
    ghost var h1 := sh.history;
    if err.Some? {
      NoneAdded(RouteTable(c));
      Stopped(env, h0, h1, setup, all);
      return;
    }
    AllRun(env, h0, h1, setup);
    ghost var configured, routes := sh.net, RouteCommands(c, env, AllNets(c.peers), |h1|);
    err, added := AddRoutes(sh, c);
    ghost var h2 := sh.history;
    Both(env, h0, h1, h2, setup, routes, err.None?);
    if err.Some? {
      Stopped(env, h0, h2, setup + routes, all);
      return;
    }
    IsolatesFrom(sh.net, configured, was, added, RouteTable(c));
    var ok := sh.RunHooks(c.postUp);
    Both(env, h0, h2, sh.history, setup + routes, Hooks(c.postUp), ok);
    if !ok {
      err := Some(PostUpFailed);
      IsolatesRules(sh.net, was, added, RouteTable(c));
      AtHook(env, h2, sh.history, c.postUp);
      NoMain(sh.history, PostUpFailed);
    }
  }

  lemma {:induction false} AtHook(env: Env, before: seq<Command>, after: seq<Command>, hooks: seq<string>)
    requires Followed(env, before, after, Hooks(hooks), false)
    ensures after != [] && after[|after| - 1].Hook?
  {
    hide Fine;
    assert after[|after| - 1] == (before + Hooks(hooks))[|after| - 1];
  }

  lemma {:induction false} NoneAdded(table: int)
    ensures Once([]) && RulesOf(AsSet([]), table) == multiset{}
  {
    NoRules(table);
  }

  lemma {:induction false} IsolatesFrom(net: Net, a: Net, b: Net, added: seq<Family>, table: int)
    requires Isolates(net, a, added, table) && a.rules == b.rules && a.routes == b.routes
    ensures Isolates(net, b, added, table)
  {
    hide DefaultKey, RulesOf;
  }

  lemma {:induction false} IsolatesRules(net: Net, was: Net, added: seq<Family>, table: int)
    requires Isolates(net, was, added, table)
    ensures Once(added) && net.rules == was.rules + RulesOf(AsSet(added), table)
  {
    hide DefaultKey, RulesOf;
  }

  lemma {:induction false} LeakLast(a: multiset<Rule>, b: multiset<Rule>, c: multiset<Rule>)
    ensures a + b + c == a + c + b
  {
  }

  lemma {:induction false} RaisedNow(net: Net, was: Net, c: QuickConfig, added: seq<Family>)
    requires c.name !in was.links && RoutesLinked(was)
    requires c.name in net.links && net.links[c.name] == Ready(c) && net.links - {c.name} == was.links - {c.name}
    requires net.dns == was.dns || (c.dns != [] && net.dns == was.dns + {c.name})
    requires forall k <- was.routes :: k in net.routes && net.routes[k] == was.routes[k]
    requires forall k <- net.routes :: k in was.routes || net.routes[k] == c.name
    requires Isolates(net, was, added, RouteTable(c)) && AsSet(added) == Isolated(c)
    ensures Raised(net, was, c)
  {
    hide RouteTable, Isolated, Ready, RulesOf, DefaultKey;
    SameLinks(net.links, was.links, c.name, Ready(c));
    IsolatesRules(net, was, added, RouteTable(c));
    assert forall f <- Isolated(c) :: f in added;
  }

  lemma {:induction false} SameLinks(links: map<string, Link>, was: map<string, Link>, name: string, link: Link)
    requires name !in was && name in links && links[name] == link && links - {name} == was - {name}
    ensures links == was[name := link]
  {
    forall k | k in links && k != name
      ensures k in was && was[k] == links[k]
    {
      assert k in links - {name} && (links - {name})[k] == (was - {name})[k];
    }
    forall k | k in was
      ensures k in links
    {
      assert k in was - {name};
    }
  }

  /** A failed Up before its rollback: the interface, its routes and the recorded rules, and maybe a leaked one. */
  ghost predicate Partly(net: Net, was: Net, c: QuickConfig, added: seq<Family>, e: Failure) {
    && c.name !in was.links && c.name in net.links && net.links - {c.name} == was.links - {c.name}
    && (net.dns == was.dns || net.dns == was.dns + {c.name})
    && (forall k <- was.routes :: k in net.routes && net.routes[k] == was.routes[k])
    && (forall k <- net.routes :: k in was.routes || net.routes[k] == c.name)
    && Once(added)
    && net.rules == was.rules + RulesOf(AsSet(added), RouteTable(c)) + Leaked(e, RouteTable(c))
  }

  /** Up without its deferred functions. */
  method Attempt(sh: Shell, c: QuickConfig) returns (err: Option<Failure>, created: bool, added: seq<Family>)
    requires sh.Valid() && RoutesLinked(sh.net) && c.name != ""
    modifies sh
    ensures sh.Valid() && Followed(sh.env, old(sh.history), sh.history, UpCommands(c, sh.env, |old(sh.history)|),
              err.None?)
    ensures err.None? ==> Raised(sh.net, old(sh.net), c)
    ensures err.Some? ==> Ends(sh.history, err.value) && err.value != EmptyName
    ensures err.Some? ==> created == !NotCreated(err.value)
    ensures err.Some? && !created ==> sh.net == old(sh.net)
    ensures err.Some? && created ==> Partly(sh.net, old(sh.net), c, added, err.value)
  {
    hide RouteTable, Isolated, Ready, RulesOf, AsSet, Isolates, Once, RoutesLinked, Followed, NetAfter, RaiseCommands,
      Ends, Raised;
    ghost var was, h0, env := sh.net, sh.history, sh.env;
    ghost var hooks, add, all := Hooks(c.preUp), [LinkAdd(c.name)], UpCommands(c, env, |h0|);
    created, added := false, [];
    var ok := sh.RunHooks(c.preUp);
    ghost var h1 := sh.history;
    if !ok {
      AtHook(env, h0, h1, c.preUp);
      NoMain(h1, PreUpFailed);
      Stopped(env, h0, h1, hooks, all);
      return Some(PreUpFailed), created, added;
    }
    AllRun(env, h0, h1, hooks);
    ok := sh.Run(LinkAdd(c.name));
    ghost var h2 := sh.history;
    Both(env, h0, h1, h2, hooks, add, ok);
    if !ok {
      NoMain(h2, InterfaceFailed);
      Stopped(env, h0, h2, hooks + add, all);
      return Some(InterfaceFailed), created, added;
    }
    created := true;
    ghost var fresh_ := sh.net;
    assert fresh_.links - {c.name} == was.links - {c.name};
    err, added := Raise(sh, c);
    Both(env, h0, h2, sh.history, hooks + add, RaiseCommands(c, env, |h2|), err.None?);
    if err.None? {
      IsolatesFrom(sh.net, fresh_, was, added, RouteTable(c));
      RaisedNow(sh.net, was, c, added);
    }
  }

  /** The deletions of a rollback: of the rules of some families, then of the interface. */
  ghost predicate Undone(c: QuickConfig, cmds: seq<Command>) {
    exists added: seq<Family> :: Once(added) && cmds == UndoRules(added, RouteTable(c)) + [LinkDel(c.name)]
  }

  lemma {:induction false} ThreeRepeat(f: Family, g: Family, h: Family, added: seq<Family>)
    requires |added| > 2 && f == added[0] && g == added[1] && h == added[2]
    ensures !Once(added)
  {
  }

  /** There are two families. */
  lemma {:induction false} AtMostTwo(added: seq<Family>)
    requires Once(added)
    ensures |added| <= 2
  {
    hide Once;
    if |added| > 2 {
      ThreeRepeat(added[0], added[1], added[2], added);
    }
  }

  /** Every command of Up would do what it is for, or its failure is ignored. */
  ghost predicate UpSucceeds(c: QuickConfig, env: Env, before: seq<Command>) {
    var all := before + UpCommands(c, env, |before|);
    AllFine(env, all, |before|, |all|)
  }

  /** The second rule of a pair would be the first command to fail. */
  ghost predicate UpLeaks(c: QuickConfig, env: Env, before: seq<Command>) {
    var all := before + UpCommands(c, env, |before|);
    exists k :: |before| <= k < |all| && IsMain(all[k]) && env.fails(k) && AllFine(env, all, |before|, k)
  }

  /** The command is the second rule of a pair, and the first rule has been added. */
  ghost predicate LeftBehind(net: Net, was: Net, cmd: Command, table: int) {
    IsMain(cmd) && net.rules == was.rules + multiset{NotMark(cmd.rule.family, table, table)}
  }

  /** Where a script that was followed stopped is decided before it runs. */
  lemma {:induction false} StopsThere(env: Env, before: seq<Command>, after: seq<Command>, script: seq<Command>, k: nat)
    requires Followed(env, before, after, script, false)
    requires var all := before + script; |before| <= k <= |all| && AllFine(env, all, |before|, k)
    ensures k < |after|
    ensures k < |before + script| && !Fine(env, before + script, k) ==> k == |after| - 1
  {
    hide Fine;
    var all := before + script;
    FineStays(env, after, all, |after| - 1);
    if k < |after| - 1 {
      FineStays(env, after, all, k);
    }
  }

  lemma {:induction false} SucceedsExactly(c: QuickConfig, env: Env, before: seq<Command>, after: seq<Command>,
      ok: bool)
    requires Followed(env, before, after, UpCommands(c, env, |before|), ok)
    ensures ok <==> UpSucceeds(c, env, before)
  {
    hide Fine, UpCommands, AllFine;
    var script := UpCommands(c, env, |before|);
    if !ok && UpSucceeds(c, env, before) {
      StopsThere(env, before, after, script, |before + script|);
    }
  }

  lemma {:induction false} MainFine(env: Env, history: seq<Command>, k: nat)
    requires k < |history| && IsMain(history[k])
    ensures Fine(env, history, k) <==> !env.fails(k)
  {
  }

  /** Whether a failing Up stops at the second rule of a pair is decided by which command fails first. */
  lemma {:induction false} StopsAtMain(c: QuickConfig, env: Env, before: seq<Command>, after: seq<Command>)
    requires Followed(env, before, after, UpCommands(c, env, |before|), false)
    ensures IsMain(after[|after| - 1]) <==> UpLeaks(c, env, before)
  {
    hide Fine, UpCommands;
    var script := UpCommands(c, env, |before|);
    var all, last := before + script, |after| - 1;
    FineStays(env, after, all, last);
    if IsMain(all[last]) {
      MainFine(env, all, last);
      forall j | |before| <= j < last
        ensures Fine(env, all, j)
      {
        FineStays(env, after, all, j);
      }
      assert AllFine(env, all, |before|, last);
    }
    if UpLeaks(c, env, before) {
      var k :| |before| <= k < |all| && IsMain(all[k]) && env.fails(k) && AllFine(env, all, |before|, k);
      MainFine(env, all, k);
      StopsThere(env, before, after, script, k);
    }
  }

  /**
   * What a failed Up leaves behind once it is rolled back undisturbed: the policy rules
   * differ exactly when the first command to fail is the second rule of a pair, and then
   * by the first rule of that pair.
   */
  lemma {:induction false} LeaksExactly(
    c: QuickConfig, env: Env, before: seq<Command>, after: seq<Command>, net: Net, was: Net, e: Failure)
    requires Followed(env, before, after, UpCommands(c, env, |before|), false)
    requires Ends(after, e) && RolledBack(net, was, c.name, e, RouteTable(c))
    ensures net.rules != was.rules <==> UpLeaks(c, env, before)
    ensures UpLeaks(c, env, before) ==> LeftBehind(net, was, after[|after| - 1], RouteTable(c))
  {
    hide Followed, UpLeaks, UpCommands, RouteTable;
    StopsAtMain(c, env, before, after);
    if e.MainRuleFailed? {
      var r := NotMark(e.family, RouteTable(c), RouteTable(c));
      assert net.rules[r] == was.rules[r] + 1;
      assert after[|after| - 1] == RuleAdd(MainSuppressed(e.family));
    }
  }

  /** The deferred functions of a failed Up: the recorded rules, then the interface. */
  method RollBack(sh: Shell, c: QuickConfig, added: seq<Family>, ghost was: Net, ghost e: Failure)
    requires sh.Valid() && RoutesLinked(was) && Partly(sh.net, was, c, added, e)
    modifies sh
    ensures sh.Valid() && sh.history == old(sh.history) + UndoRules(added, RouteTable(c)) + [LinkDel(c.name)]
    ensures sh.Quiet(|old(sh.history)|) ==> RolledBack(sh.net, was, c.name, e, RouteTable(c))
  {
    hide RouteTable, RulesOf, AsSet, Once, NetAfter, Followed, RoutesLinked;
    ghost var h0 := sh.history;
    ghost var leaked := Leaked(e, RouteTable(c));
    LeakLast(was.rules, RulesOf(AsSet(added), RouteTable(c)), leaked);
    DroppedRoutes(sh.net, was, c.name);
    SameWithout(sh.net.links, was.links, c.name);
    RollbackRules(sh, added, RouteTable(c), was.rules + leaked);
    ghost var h1 := sh.history;
    var _ := sh.Run(LinkDel(c.name));
    if sh.Quiet(|h0|) {
      assert !sh.env.fails(|h1|);
    }
  }

  lemma {:induction false} SameWithout(links: map<string, Link>, was: map<string, Link>, name: string)
    requires name !in was && links - {name} == was - {name}
    ensures links - {name} == was
  {
    assert was - {name} == was;
  }

  lemma {:induction false} SuccessKeepsNoLeak(c: QuickConfig, env: Env, before: seq<Command>)
    requires UpSucceeds(c, env, before)
    ensures !UpLeaks(c, env, before)
  {
    hide Fine, UpCommands;
    if UpLeaks(c, env, before) {
      var all := before + UpCommands(c, env, |before|);
      var k :| |before| <= k < |all| && IsMain(all[k]) && env.fails(k) && AllFine(env, all, |before|, k);
      MainFine(env, all, k);
      assert false;
    }
  }

  lemma {:induction false} UndoneRollback(c: QuickConfig, added: seq<Family>, before: seq<Command>, after: seq<Command>)
    requires Once(added) && after == before + UndoRules(added, RouteTable(c)) + [LinkDel(c.name)]
    ensures |after| <= |before| + 5 && after[..|before|] == before && Undone(c, after[|before|..])
  {
    hide Once, UndoRules, RouteTable;
    AtMostTwo(added);
    assert after[|before|..] == UndoRules(added, RouteTable(c)) + [LinkDel(c.name)];
  }

  /** What Up made of the network, when it returned `err` and its rollback began at command `rollback`. */
  ghost predicate UpResult(c: QuickConfig, sh: Shell, was: Net, err: Option<Failure>, rollback: nat)
    reads sh
  {
    && (err.None? ==> Raised(sh.net, was, c))
    && (err.Some? && sh.Quiet(rollback) ==> RolledBack(sh.net, was, c.name, err.value, RouteTable(c)))
  }

  /** The commands of Up: its script up to the first failure, then the rollback. */
  ghost predicate UpHistory(c: QuickConfig, env: Env, before: seq<Command>, history: seq<Command>, err: Option<Failure>,
                            rollback: nat)
  {
    && |before| <= rollback <= |history| <= rollback + 5
    && Followed(env, before, history[..rollback], UpCommands(c, env, |before|), err.None?)
    && (if err.None? || NotCreated(err.value) then rollback == |history| else Undone(c, history[rollback..]))
  }

  /**
   * Up, with its deferred rollback, which starts at command `rollback`. When none of the at
   * most five commands of the rollback fails, a failed Up leaves no interface and no route,
   * and no rule but the one that was added just before the second rule of its pair failed.
   */
  method Up(sh: Shell, c: QuickConfig) returns (err: Option<Failure>, ghost rollback: nat)
    requires sh.Valid() && RoutesLinked(sh.net)
    modifies sh
    ensures sh.Valid()
    ensures c.name == "" ==> err == Some(EmptyName) && sh.history == old(sh.history) && sh.net == old(sh.net)
    ensures c.name != "" ==> UpHistory(c, sh.env, old(sh.history), sh.history, err, rollback)
    ensures UpResult(c, sh, old(sh.net), err, rollback)
    ensures err.None? ==> Done(c, sh.env, old(sh.history), sh.history, sh.net, old(sh.net))
    ensures c.name != "" ==> (err.None? <==> UpSucceeds(c, sh.env, old(sh.history)))
    ensures c.name != "" && sh.Quiet(rollback) ==>
              (err.Some? && sh.net.rules != old(sh.net.rules) <==> UpLeaks(c, sh.env, old(sh.history)))
    ensures c.name != "" && sh.Quiet(rollback) && UpLeaks(c, sh.env, old(sh.history)) ==>
              LeftBehind(sh.net, old(sh.net), sh.history[rollback - 1], RouteTable(c))
  {
    hide RouteTable, RoutesLinked, Followed, NetAfter, UpSucceeds, UpLeaks, UpCommands, Raised, Ends, Undone,
      UndoRules, Partly, Done;
    ghost var was, h0 := sh.net, sh.history;
    rollback := |h0|;
    if c.name == "" {
      RolledBackNow(was, c.name, EmptyName, RouteTable(c));
      return Some(EmptyName), rollback;
    }
    var created, added;
    err, created, added := Attempt(sh, c);
    ghost var h1 := sh.history;
    rollback := |h1|;
    SucceedsExactly(c, sh.env, h0, h1, err.None?);
    assert h1[..rollback] == h1;
    FollowedGrows(sh.env, h0, h1, UpCommands(c, sh.env, |h0|), err.None?);
    if err.None? {
      SuccessKeepsNoLeak(c, sh.env, h0);
      UpDoes(c, sh.env, h0, h1);
      return;
    }
    if created {
      OnceRecorded(sh.net, was, c, added, err.value);
      RollBack(sh, c, added, was, err.value);
      UndoneRollback(c, added, h1, sh.history);
    } else {
      RolledBackNow(was, c.name, err.value, RouteTable(c));
    }
    if sh.Quiet(rollback) {
      LeaksExactly(c, sh.env, h0, h1, sh.net, was, err.value);
    }
  }

  lemma {:induction false} FollowedGrows(env: Env, before: seq<Command>, after: seq<Command>, script: seq<Command>,
      ok: bool)
    requires Followed(env, before, after, script, ok)
    ensures before <= after
  {
  }

  lemma {:induction false} OnceRecorded(net: Net, was: Net, c: QuickConfig, added: seq<Family>, e: Failure)
    requires Partly(net, was, c, added, e)
    ensures Once(added)
  {
  }

  /** Nothing done is nothing to roll back. */
  lemma {:induction false} RolledBackNow(was: Net, name: string, e: Failure, table: int)
    requires !e.MainRuleFailed?
    ensures RolledBack(was, was, name, e, table)
  {
    NothingLeaks(was.rules, e, table);
  }

  /**
   * After a successful Up each isolated default route leaves by the interface, in the
   * table that traffic without the mark of the device uses: mark, rule and table agree.
   */
  lemma {:induction false} MarksAgree(net: Net, was: Net, c: QuickConfig, f: Family)
    requires Raised(net, was, c) && f in Isolated(c)
    ensures var link := net.links[c.name];
            && link.config.Some? && link.config.value.firewallMark.Some?
            && var mark := link.config.value.firewallMark.value;
               && mark == c.firewallMark.GetOr(DEFAULT_TABLE)
               && NotMark(f, mark, mark) in net.rules && MainSuppressed(f) in net.rules
               && DefaultKey(f, mark) in net.routes && net.routes[DefaultKey(f, mark)] == c.name
  {
    hide DefaultKey, DefaultFamilies, AllNets, EntriesOf, AddressSet;
    assert Isolated(c) != {} && RouteMode(c) == Auto;
    assert RouteTable(c) == c.firewallMark.GetOr(DEFAULT_TABLE);
    assert Pair(f, RouteTable(c)) <= RulesOf(Isolated(c), RouteTable(c)) by {
      match f
      case V4 =>
      case V6 =>
    }
    assert NotMark(f, RouteTable(c), RouteTable(c)) in Pair(f, RouteTable(c))
      && MainSuppressed(f) in Pair(f, RouteTable(c));
  }

  // ----- down -----

  function WithoutRules(net: Net, rules: multiset<Rule>): Net {
    net.(rules := net.rules - rules)
  }

  /** More commands, and no hook among them. */
  ghost predicate Hookless(before: seq<Command>, after: seq<Command>) {
    before <= after && NoHooks(after[|before|..])
  }

  lemma {:induction false} HooklessBoth(a: seq<Command>, b: seq<Command>, c: seq<Command>)
    requires Hookless(a, b) && Hookless(b, c)
    ensures Hookless(a, c)
  {
    assert c[|a|..] == b[|a|..] + c[|b|..];
    QuietBoth(b[|a|..], c[|b|..]);
  }

  /** The rules of a family, where it has them. */
  method DeleteFamily(sh: Shell, has: bool, f: Family, table: int)
    requires sh.Valid()
    modifies sh
    ensures sh.Valid() && Hookless(old(sh.history), sh.history) && sh.net == old(sh.net).(rules := sh.net.rules)
    ensures Fewer(old(sh.net.rules), sh.net.rules, PairIf(has, f, table))
    ensures sh.Quiet(|old(sh.history)|) && PairIf(has, f, table) <= old(sh.net.rules) ==>
              sh.net.rules == old(sh.net.rules) - PairIf(has, f, table)
  {
    hide Pair, NetAfter;
    ghost var rules := sh.net.rules;
    assert rules - multiset{} == rules;
    if has {
      hide Fewer;
      DelDefaultRules(sh, f, table);
    }
  }

  method DeleteRules(sh: Shell, c: QuickConfig)
    requires sh.Valid()
    modifies sh
    ensures sh.Valid() && Hookless(old(sh.history), sh.history) && sh.net == old(sh.net).(rules := sh.net.rules)
    ensures Fewer(old(sh.net.rules), sh.net.rules, RulesOf(Isolated(c), RouteTable(c)))
    ensures sh.Quiet(|old(sh.history)|) && RulesOf(Isolated(c), RouteTable(c)) <= old(sh.net.rules) ==>
              sh.net == WithoutRules(old(sh.net), RulesOf(Isolated(c), RouteTable(c)))
  {
    hide RouteTable, Pair, PairIf, DefaultFamilies, AllNets, NetAfter, Fewer, NoHooks;
    ghost var rules, h0 := sh.net.rules, sh.history;
    var default := HasDefaultRoute(c);
    if RouteMode(c) == Auto && default {
      var families := FamiliesOf(c);
      var table := RouteTable(c);
      ghost var four, six := PairIf(V4 in families, V4, table), PairIf(V6 in families, V6, table);
      DeleteFamily(sh, V4 in families, V4, table);
      ghost var between, h1 := sh.net.rules, sh.history;
      DeleteFamily(sh, V6 in families, V6, table);
      TwoPairs(rules, four, six);
      FewerRules(rules, between, sh.net.rules, four, six);
      HooklessBoth(h0, h1, sh.history);
    } else {
      NoneIsolated(rules, RouteTable(c));
      HooklessNothing(h0);
    }
  }

  lemma {:induction false} NoneIsolated(rules: multiset<Rule>, table: int)
    ensures RulesOf({}, table) == multiset{} && rules - multiset{} == rules && Fewer(rules, rules, multiset{})
  {
  }

  lemma {:induction false} HooklessNothing(history: seq<Command>)
    ensures Hookless(history, history)
  {
  }

  lemma {:induction false} TwoPairs(rules: multiset<Rule>, a: multiset<Rule>, b: multiset<Rule>)
    ensures a + b <= rules ==> a <= rules && b <= rules - a && rules - (a + b) == rules - a - b
  {
    if a + b <= rules {
      forall r: Rule
        ensures b[r] <= (rules - a)[r] && a[r] <= rules[r]
      {
        assert (a + b)[r] <= rules[r];
      }
    }
  }

  function Lowered(net: Net, c: QuickConfig): Net {
    var cleared := WithoutRules(net, RulesOf(Isolated(c), RouteTable(c)));
    var unlinked := if c.name in cleared.links then WithoutLink(cleared, c.name) else cleared;
    if c.dns == [] then unlinked else unlinked.(dns := unlinked.dns - {c.name})
  }

  /** Deletes the interface if it is there. */
  method TakeDown(sh: Shell, name: string) returns (ok: bool)
    requires sh.Valid()
    modifies sh
    ensures sh.Valid() && Hookless(old(sh.history), sh.history)
    ensures sh.net == old(sh.net) || (ok && sh.net == WithoutLink(old(sh.net), name))
    ensures sh.Quiet(|old(sh.history)|) ==>
              ok && sh.net == if name in old(sh.net.links) then WithoutLink(old(sh.net), name) else old(sh.net)
  {
    hide Followed, NetAfter;
    ghost var h := |sh.history|;
    var exists_ := sh.Run(LinkShow(name));
    ok := true;
    if exists_ {
      ok := sh.Run(LinkDel(name));
    }
    if sh.Quiet(h) {
      assert !sh.env.fails(h) && !sh.env.fails(h + 1);
    }
  }

  method UnsetDNS(sh: Shell, name: string)
    requires sh.Valid()
    modifies sh
    ensures sh.Valid() && Hookless(old(sh.history), sh.history)
    ensures sh.net == old(sh.net) || sh.net == old(sh.net).(dns := old(sh.net.dns) - {name})
    ensures sh.Quiet(|old(sh.history)|) ==> sh.net == old(sh.net).(dns := old(sh.net.dns) - {name})
  {
    hide Followed, NetAfter;
    ghost var h := |sh.history|;
    if sh.Quiet(h) {
      assert !sh.env.fails(h) && !sh.env.fails(h + 1);
    }
    var found := sh.Run(FindResolvconf);
    if !found {
      return;
    }
    var _ := sh.Run(DNSDel(name));
  }

  /** All that Down may take away, whatever fails: the interface with its routes, its rules and its DNS entry. */
  ghost predicate Spared(net: Net, was: Net, c: QuickConfig) {
    && ((net.links == was.links && net.routes == was.routes)
        || (net.links == was.links - {c.name} && net.routes == WithoutLink(was, c.name).routes))
    && Fewer(was.rules, net.rules, RulesOf(Isolated(c), RouteTable(c)))
    && (net.dns == was.dns || (c.dns != [] && net.dns == was.dns - {c.name}))
  }

  /** Everything of Down but its hooks. */
  method Clear(sh: Shell, c: QuickConfig) returns (ok: bool)
    requires sh.Valid()
    modifies sh
    ensures sh.Valid() && Hookless(old(sh.history), sh.history) && Spared(sh.net, old(sh.net), c)
    ensures sh.Quiet(|old(sh.history)|) ==> ok
    ensures sh.Quiet(|old(sh.history)|) && RulesOf(Isolated(c), RouteTable(c)) <= old(sh.net.rules) ==>
              sh.net == Lowered(old(sh.net), c)
  {
    hide RouteTable, RulesOf, Isolated, Followed, NetAfter, NoHooks;
    ghost var h0 := sh.history;
    DeleteRules(sh, c);
    ghost var h1 := sh.history;
    ok := TakeDown(sh, c.name);
    HooklessBoth(h0, h1, sh.history);
    if !ok {
      return;
    }
    ghost var h2 := sh.history;
    if |c.dns| > 0 {
      UnsetDNS(sh, c.name);
      HooklessBoth(h0, h2, sh.history);
    }
  }

  /** Hooks, other commands, hooks. */
  lemma {:induction false} HooksAround(h0: seq<Command>, h1: seq<Command>, h2: seq<Command>, h3: seq<Command>,
      first: seq<string>, last: seq<string>)
    requires h1 == h0 + Hooks(first) && Hookless(h1, h2) && h3 == h2 + Hooks(last)
    ensures h0 <= h3 && Hooked(h3[|h0|..], first, last)
  {
    hide Hooks, NoHooks, Hooked;
    var middle := h2[|h1|..];
    assert h2 == h1 + middle;
    assert h3[|h0|..] == Hooks(first) + middle + Hooks(last);
    Between(Hooks(first), middle, Hooks(last), first, last);
  }

  /** Down takes away what it was given the configuration of, when no command fails, and never anything else. */
  method Down(sh: Shell, c: QuickConfig) returns (err: Option<Failure>)
    requires sh.Valid()
    modifies sh
    ensures sh.Valid() && old(sh.history) <= sh.history && Spared(sh.net, old(sh.net), c)
    ensures c.name == "" ==> err == Some(EmptyName) && sh.history == old(sh.history) && sh.net == old(sh.net)
    ensures err == Some(PreDownFailed) ==>
              sh.net == old(sh.net) && Followed(sh.env, old(sh.history), sh.history, Hooks(c.preDown), false)
    ensures c.name != "" && err.None? ==> Hooked(sh.history[|old(sh.history)|..], c.preDown, c.postDown)
    ensures c.name != "" && sh.Quiet(|old(sh.history)|) ==> err.None?
    ensures c.name != "" && sh.Quiet(|old(sh.history)|) && RulesOf(Isolated(c), RouteTable(c)) <= old(sh.net.rules) ==>
              sh.net == Lowered(old(sh.net), c)
  {
    hide RouteTable, RulesOf, Isolated, Followed, NetAfter, Lowered, Hooks, Hooked, NoHooks;
    ghost var h0, rules := sh.history, sh.net.rules;
    assert Fewer(rules, rules, RulesOf(Isolated(c), RouteTable(c)));
    if c.name == "" {
      return Some(EmptyName);
    }
    var ok := sh.RunHooks(c.preDown);
    FollowedGrows(sh.env, h0, sh.history, Hooks(c.preDown), ok);
    if !ok {
      return Some(PreDownFailed);
    }
    ghost var h1 := sh.history;
    AllRun(sh.env, h0, h1, Hooks(c.preDown));
    ok := Clear(sh, c);
    if !ok {
      return Some(DeleteFailed);
    }
    ghost var h2 := sh.history;
    ok := sh.RunHooks(c.postDown);
    FollowedGrows(sh.env, h2, sh.history, Hooks(c.postDown), ok);
    if !ok {
      return Some(PostDownFailed);
    }
    AllRun(sh.env, h2, sh.history, Hooks(c.postDown));
    HooksAround(h0, h1, h2, sh.history, c.preDown, c.postDown);
    err := None;
  }

  // ----- both -----

  /** The network that Up found, with the DNS entry of the interface gone if there was one. */
  function Restored(was: Net, c: QuickConfig): Net {
    if c.dns == [] then was else was.(dns := was.dns - {c.name})
  }

  lemma {:induction false} LoweredRaised(net: Net, was: Net, c: QuickConfig)
    requires RoutesLinked(was) && Raised(net, was, c)
    ensures RulesOf(Isolated(c), RouteTable(c)) <= net.rules && Lowered(net, c) == Restored(was, c)
  {
    hide RouteTable, RulesOf, Isolated, Ready, DefaultKey;
    DroppedRoutes(net, was, c.name);
    assert was.links[c.name := Ready(c)] - {c.name} == was.links;
    var rules := RulesOf(Isolated(c), RouteTable(c));
    assert was.rules + rules - rules == was.rules;
    assert (was.dns + {c.name}) - {c.name} == was.dns - {c.name};
  }

  /**
   * Down after a successful Up restores links, routes and the multiset of policy rules, when
   * none of the commands after those of Up fails.
   */
  method UpThenDown(sh: Shell, c: QuickConfig) returns (up: Option<Failure>, down: Option<Failure>)
    requires sh.Valid() && RoutesLinked(sh.net)
    modifies sh
    ensures c.name != "" ==> (up.None? <==> UpSucceeds(c, sh.env, old(sh.history)))
    ensures up.None? && sh.Quiet(|old(sh.history) + UpCommands(c, sh.env, |old(sh.history)|)|) ==>
              down.None? && sh.net == Restored(old(sh.net), c)
  {
    hide RoutesLinked, Raised, RolledBack, Lowered, RulesOf, Isolated, RouteTable, UpSucceeds, UpLeaks, UpCommands,
      Followed, NetAfter;
    ghost var was, h0 := sh.net, sh.history;
    ghost var rollback;
    up, rollback := Up(sh, c);
    down := None;
    if up.Some? {
      return;
    }
    assert sh.history[..rollback] == sh.history;
    AllRun(sh.env, h0, sh.history, UpCommands(c, sh.env, |h0|));
    LoweredRaised(sh.net, was, c);
    down := Down(sh, c);
  }

  // ----- a run that leaks -----

  function Everything(): Cidr {
    Cidr4([0, 0, 0, 0], 0)
  }

  /** One peer that takes all IPv4 traffic. */
  function AllTraffic(): QuickConfig {
    QuickConfig("wg0", None, None, None, [], [], 0, "", [], [], [], [],
                [QuickPeer(ZeroKey(), None, [Everything()], None, None)])
  }

  /** An empty network, on which only the seventh command fails. */
  function SeventhFails(): Env {
    Env(Net(map[], map[], multiset{}, {}), k => k == 6, k => false)
  }

  /** The commands of Up for that configuration. */
  function SevenCommands(): (r: seq<Command>)
    ensures |r| == 7
  {
    [LinkAdd("wg0"), OpenClient, Configure("wg0", DeviceConfig(AllTraffic())), LinkUp("wg0", 0),
     RouteAdd("wg0", KeyOf(Everything(), DEFAULT_TABLE)),
     RuleAdd(NotMark(V4, DEFAULT_TABLE, DEFAULT_TABLE)), RuleAdd(MainSuppressed(V4))]
  }

  lemma {:induction false} AllTrafficRoutes(env: Env, at: nat)
    ensures RouteTable(AllTraffic()) == DEFAULT_TABLE
    ensures RouteCommands(AllTraffic(), env, AllNets(AllTraffic().peers), at)
         == [RouteAdd("wg0", KeyOf(Everything(), DEFAULT_TABLE))] + RuleCommands(V4, DEFAULT_TABLE)
  {
    hide KeyOf;
    var c, ps := AllTraffic(), AllTraffic().peers;
    assert ps[..0] == [] && AllNets(ps) == AllNets([]) + [Everything()];
    var nets := [Everything()];
    assert AllNets(ps) == nets && nets[..0] == [];
    assert RouteCommands(c, env, nets, at) == RouteCommands(c, env, [], at) + NetCommands(c, env, Everything(), at);
  }

  lemma {:induction false} AllTrafficCommands()
    ensures UpCommands(AllTraffic(), SeventhFails(), 0) == SevenCommands()
  {
    hide RouteCommands, AllNets, KeyOf, RouteTable, DeviceConfig;
    var c, env := AllTraffic(), SeventhFails();
    AllTrafficRoutes(env, 4);
    assert SetupCommands(c, env, 1) == [OpenClient, Configure("wg0", DeviceConfig(c)), LinkUp("wg0", 0)];
  }

  lemma {:induction false} OneStep(env: Env, all: seq<Command>, k: nat)
    requires k < |all| && !env.fails(k) && !Refused(NetAfter(env, all[..k]), all[k])
    ensures NetAfter(env, all[..k + 1]) == Effect(NetAfter(env, all[..k]), all[k]) && Fine(env, all, k)
  {
    Snoc(all, k);
  }

  /** The interface is there, and no route is. */
  ghost predicate Routeless(net: Net) {
    "wg0" in net.links && net.routes == map[]
  }

  lemma {:induction false} Creates(net: Net)
    requires "wg0" !in net.links && net.routes == map[]
    ensures !Refused(net, LinkAdd("wg0")) && Routeless(Effect(net, LinkAdd("wg0")))
  {
  }

  lemma {:induction false} StaysRouteless(net: Net, cmd: Command)
    requires Routeless(net)
    requires cmd == OpenClient || (cmd.Configure? && cmd.name == "wg0") || (cmd.LinkUp? && cmd.name == "wg0")
    ensures !Refused(net, cmd) && Routeless(Effect(net, cmd))
  {
  }

  lemma {:induction false} NotRefused(net: Net, cmd: Command)
    requires cmd.RuleAdd? || (cmd.RouteAdd? && Routeless(net))
    ensures !Refused(net, cmd)
  {
  }

  lemma {:induction false} NothingFailsBefore(k: nat)
    requires k < 6
    ensures !SeventhFails().fails(k)
  {
  }

  lemma {:induction false} FirstFour()
    ensures AllFine(SeventhFails(), SevenCommands(), 0, 4)
    ensures Routeless(NetAfter(SeventhFails(), SevenCommands()[..4]))
  {
    hide KeyOf, DeviceConfig, NetAfter, Fine, Refused, Effect, SeventhFails;
    var env, all := SeventhFails(), SevenCommands();
    NothingYet(env, all);
    EmptyAtFirst();
    forall k: nat | k < 6 {
      NothingFailsBefore(k);
    }
    Creates(env.first);
    OneStep(env, all, 0);
    StaysRouteless(NetAfter(env, all[..1]), all[1]);
    OneStep(env, all, 1);
    StaysRouteless(NetAfter(env, all[..2]), all[2]);
    OneStep(env, all, 2);
    StaysRouteless(NetAfter(env, all[..3]), all[3]);
    OneStep(env, all, 3);
  }

  /** None of the first six commands fails or is refused. */
  lemma {:induction false} SixWork()
    ensures AllFine(SeventhFails(), SevenCommands(), 0, 6)
  {
    hide KeyOf, DeviceConfig, NetAfter, Fine, Refused, Effect, SeventhFails;
    var env, all := SeventhFails(), SevenCommands();
    FirstFour();
    NothingFailsBefore(4);
    NothingFailsBefore(5);
    NotRefused(NetAfter(env, all[..4]), all[4]);
    OneStep(env, all, 4);
    NotRefused(NetAfter(env, all[..5]), all[5]);
    OneStep(env, all, 5);
  }

  lemma {:induction false} NothingYet(env: Env, all: seq<Command>)
    ensures NetAfter(env, all[..0]) == env.first
  {
  }

  lemma {:induction false} LeakHappens()
    ensures UpLeaks(AllTraffic(), SeventhFails(), [])
  {
    hide UpCommands, SeventhFails, Fine;
    AllTrafficCommands();
    SixWork();
    var all := [] + UpCommands(AllTraffic(), SeventhFails(), 0);
    assert all == SevenCommands() && IsMain(all[6]);
    assert SeventhFails().fails(6) by {
      FailsAtSix();
    }
  }

  lemma {:induction false} FailsAtSix()
    ensures forall k: nat :: SeventhFails().fails(k) <==> k == 6
  {
  }

  /** Up on that network fails and leaves a rule behind that traffic without its mark uses table 51820. */
  method LeakingUp() returns (sh: Shell)
    ensures fresh(sh) && sh.env == SeventhFails()
    ensures sh.net.rules == multiset{NotMark(V4, DEFAULT_TABLE, DEFAULT_TABLE)} && sh.net.links == map[]
  {
    hide UpLeaks, UpSucceeds, UpCommands, Fine, NetAfter, Undone, Raised, RouteTable, SeventhFails, SevenCommands,
      AllFine;
    sh := new Shell(SeventhFails());
    var c := AllTraffic();
    var err;
    ghost var rollback;
    EmptyAtFirst();
    err, rollback := Up(sh, c);
    AllTrafficRoutes(sh.env, 0);
    FailsAtSix();
    LeakHappens();
    if UpSucceeds(c, sh.env, []) {
      SuccessKeepsNoLeak(c, sh.env, []);
    }
    SeventhIsLast(sh.history[..rollback]);
    assert sh.history[..rollback][rollback - 1] == sh.history[rollback - 1];
  }

  /** Up stops behind the seventh command on that network. */
  lemma {:induction false} SeventhIsLast(ran: seq<Command>)
    requires Followed(SeventhFails(), [], ran, UpCommands(AllTraffic(), SeventhFails(), 0), false)
    ensures |ran| > 6 && ran[|ran| - 1] == RuleAdd(MainSuppressed(V4))
  {
    hide UpCommands, SeventhFails, SevenCommands, AllFine, Fine;
    AllTrafficCommands();
    SixWork();
    assert [] + SevenCommands() == SevenCommands();
    StopsThere(SeventhFails(), [], ran, SevenCommands(), 6);
    LastIsMain(ran);
  }

  lemma {:induction false} EmptyAtFirst()
    ensures SeventhFails().first == Net(map[], map[], multiset{}, {})
  {
  }

  /** The seven commands are all that is run, when it is more than six of them. */
  lemma {:induction false} LastIsMain(ran: seq<Command>)
    requires [] <= ran <= [] + SevenCommands() && |ran| > 6
    ensures ran[|ran| - 1] == RuleAdd(MainSuppressed(V4))
  {
    hide DeviceConfig, KeyOf;
    assert ran == SevenCommands();
  }
}
