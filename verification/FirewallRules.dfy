/** Whitelists and blacklists: how DatabaseHelper folds rule rows into an ordered list, and how MyVpnService decides
    with it. */
module FirewallRules {
  import opened Bytes

  /** One row of the join of rules and hosts; a rule without hosts gives a row without target. */
  datatype Row = Row(ruleType: string, exclusive: bool, target: Option<string>, hostType: Option<string>)

  datatype Kind = Blacklist | Whitelist

  datatype TargetKind = Ip | Host

  /** A rule of one package: only the keys of its maps matter. */
  datatype Rule = Rule(kind: Kind, exclusive: bool, ips: set<string>, hosts: set<string>)

  function Listed(rule: Rule, target: TargetKind): set<string> {
    if target.Ip? then rule.ips else rule.hosts
  }

  datatype CheckResult = CheckResult(blocked: bool, finished: bool)

  // ----- the reference: what the rows say, in any order

  function HostType(k: TargetKind): string {
    if k.Ip? then "ip" else "host"
  }

  predicate Lists(r: Row, ruleType: string, k: TargetKind) {
    r.ruleType == ruleType && r.target.Some? && r.hostType == Some(HostType(k))
  }

  function Targets(rows: seq<Row>, ruleType: string, k: TargetKind): set<string> {
    set r | r in rows && Lists(r, ruleType, k) :: r.target.value
  }

  predicate Exclusive(rows: seq<Row>) {
    exists r :: r in rows && r.ruleType == "whitelist" && r.exclusive
  }

  /** Some host or address is whitelisted. */
  predicate HasWhitelist(rows: seq<Row>) {
    Targets(rows, "whitelist", Ip) + Targets(rows, "whitelist", Host) != {}
  }

  /** The precedence: a whitelisted value is allowed for good; then a non-empty exclusive whitelist of its kind blocks;
      then the blacklist blocks, unless some exclusive whitelist exists; then the rules leave it open. */
  function Decide(rows: seq<Row>, k: TargetKind, value: string): CheckResult {
    var white := Targets(rows, "whitelist", k);
    if value in white then CheckResult(false, true)
    else if white != {} && Exclusive(rows) then CheckResult(true, true)
    else if value in Targets(rows, "blacklist", k) && !(HasWhitelist(rows) && Exclusive(rows)) then CheckResult(true, true)
    else CheckResult(false, false)
  }

  /** The order of the rows does not matter. */
  lemma DecideIgnoresOrder(rows: seq<Row>, rows': seq<Row>, k: TargetKind, value: string)
    requires multiset(rows) == multiset(rows')
    ensures Decide(rows, k, value) == Decide(rows', k, value)
  {
    assert forall r :: r in rows <==> r in multiset(rows);
    assert forall r :: r in rows' <==> r in multiset(rows');
    forall t, j
      ensures Targets(rows, t, j) == Targets(rows', t, j)
    {
      assert forall r :: r in rows <==> r in rows';
    }
    assert Exclusive(rows) == Exclusive(rows');
  }

  // ----- building the list

  predicate Empty(rule: Rule) {
    rule.ips == {} && rule.hosts == {}
  }

  function AddTarget(rule: Rule, target: string, hostType: string): Rule {
    if hostType == "host" then rule.(hosts := rule.hosts + {target})
    else if hostType == "ip" then rule.(ips := rule.ips + {target})
    else rule
  }

  predicate Collects(rule: Rule, rows: seq<Row>, ruleType: string) {
    rule.ips == Targets(rows, ruleType, Ip) && rule.hosts == Targets(rows, ruleType, Host)
  }

  lemma TargetsGrow(rows: seq<Row>, r: Row, ruleType: string, k: TargetKind)
    ensures Targets(rows + [r], ruleType, k) ==
            Targets(rows, ruleType, k) + if Lists(r, ruleType, k) then {r.target.value} else {}
  {
    hide Lists;
    var more := rows + [r];
    assert forall x :: x in more <==> x in rows || x == r;
  }

  /** Folds the rows into a whitelist and a blacklist, and orders those that are used. */
  method GetPackageRule(rows: seq<Row>) returns (rules: seq<Rule>)
    ensures rules == RulesOf(rows)
  {
    var blacklist := Rule(Blacklist, false, {}, {});
    var whitelist := Rule(Whitelist, false, {}, {});
    for i := 0 to |rows|
      invariant blacklist.kind == Blacklist && !blacklist.exclusive && Collects(blacklist, rows[..i], "blacklist")
      invariant whitelist.kind == Whitelist && Collects(whitelist, rows[..i], "whitelist")
      invariant whitelist.exclusive == Exclusive(rows[..i])
    {
      var r := rows[i];
      assert rows[..i + 1] == rows[..i] + [r];
      FoldStep(rows[..i], r);
      if r.ruleType == "whitelist" {
        if r.exclusive {
          whitelist := whitelist.(exclusive := true);
        }
        if r.target.Some? && r.hostType.Some? {
          whitelist := AddTarget(whitelist, r.target.value, r.hostType.value);
        }
      } else if r.ruleType == "blacklist" {
        if r.target.Some? && r.hostType.Some? {
          blacklist := AddTarget(blacklist, r.target.value, r.hostType.value);
        }
      }
    }
    assert rows[..|rows|] == rows;
    rules := [];
    if !Empty(whitelist) {
      rules := rules + [whitelist];
    }
    var canUseBlacklist := rules == [] || !whitelist.exclusive;
    if canUseBlacklist && !Empty(blacklist) {
      rules := rules + [blacklist];
    }
  }

  lemma FoldStep(rows: seq<Row>, r: Row)
    ensures forall t, k :: Targets(rows + [r], t, k) ==
                           Targets(rows, t, k) + if Lists(r, t, k) then {r.target.value} else {}
    ensures Exclusive(rows + [r]) == (Exclusive(rows) || (r.ruleType == "whitelist" && r.exclusive))
  {
    forall t, k
      ensures Targets(rows + [r], t, k) == Targets(rows, t, k) + if Lists(r, t, k) then {r.target.value} else {}
    {
      TargetsGrow(rows, r, t, k);
    }
    var more := rows + [r];
    assert forall x :: x in more <==> x in rows || x == r;
  }

  /** The list of rules that the rows give. */
  function RulesOf(rows: seq<Row>): seq<Rule> {
    var white := Rule(Whitelist, Exclusive(rows), Targets(rows, "whitelist", Ip), Targets(rows, "whitelist", Host));
    var black := Rule(Blacklist, false, Targets(rows, "blacklist", Ip), Targets(rows, "blacklist", Host));
    (if Empty(white) then [] else [white]) +
    (if (Empty(white) || !white.exclusive) && !Empty(black) then [black] else [])
  }

  // ----- deciding

  class Service {
    var rules: map<int, seq<Rule>>
    var blockAll: set<int>

    /** The first rule that has something of the kind and settles the matter. */
    method BlockedByRule(uid: int, value: string, target: TargetKind) returns (r: CheckResult)
      ensures r == if uid in rules then Evaluate(rules[uid], value, target) else CheckResult(false, false)
    {
      if uid !in rules {
        return CheckResult(false, false);
      }
      var list := rules[uid];
      for i := 0 to |list|
        invariant Evaluate(list, value, target) == Evaluate(list[i..], value, target)
      {
        assert list[i..][1..] == list[i + 1..];
        var names := Listed(list[i], target);
        if names == {} {
          continue;
        }
        var listed := value in names;
        match list[i].kind {
          case Blacklist =>
            return CheckResult(listed, listed);
          case Whitelist =>
            if listed {
              return CheckResult(false, true);
            } else if list[i].exclusive {
              return CheckResult(true, true);
            }
        }
      }
      return CheckResult(false, false);
    }

    /** Whether a domain is blocked for an application; blockedGlobally stands for the global list. */
    method IsDomainBlocked(uid: int, name: string, blockedGlobally: string -> bool) returns (blocked: bool)
      ensures blocked == DomainBlocked(rules, blockAll, uid, name, blockedGlobally)
    {
      var clean := CleanDomain(name);
      blocked := uid in blockAll;
      if !blocked && uid > 0 {
        var r := BlockedByRule(uid, clean, Host);
        blocked := r.blocked;
        if r.finished {
          return;
        }
      }
      if !blocked {
        blocked := blockedGlobally(clean);
      }
    }
  }

  function CleanDomain(name: string): string {
    if "www." <= name then name[4..] else name
  }

  function Evaluate(list: seq<Rule>, value: string, target: TargetKind): (r: CheckResult)
    ensures r.blocked ==> r.finished
  {
    if list == [] then CheckResult(false, false)
    else
      var names := Listed(list[0], target);
      if names == {} then Evaluate(list[1..], value, target)
      else if list[0].kind == Blacklist then CheckResult(value in names, value in names)
      else if value in names then CheckResult(false, true)
      else if list[0].exclusive then CheckResult(true, true)
      else Evaluate(list[1..], value, target)
  }

  function DomainBlocked(rules: map<int, seq<Rule>>, blockAll: set<int>, uid: int, name: string,
                         blockedGlobally: string -> bool): bool {
    var clean := CleanDomain(name);
    if uid in blockAll then true
    else
      var r := if uid > 0 && uid in rules then Evaluate(rules[uid], clean, Host) else CheckResult(false, false);
      if r.finished then r.blocked else blockedGlobally(clean)
  }

  /** The list built from the rows decides as the precedence says. */
  lemma EvaluateDecides(rows: seq<Row>, k: TargetKind, value: string)
    ensures Evaluate(RulesOf(rows), value, k) == Decide(rows, k, value)
  {
    hide Targets, Exclusive;
    var l := RulesOf(rows);
    var white := Rule(Whitelist, Exclusive(rows), Targets(rows, "whitelist", Ip), Targets(rows, "whitelist", Host));
    var black := Rule(Blacklist, false, Targets(rows, "blacklist", Ip), Targets(rows, "blacklist", Host));
    assert Evaluate([], value, k) == CheckResult(false, false);
    assert [black][1..] == [];
    assert Evaluate([black], value, k) == CheckResult(value in Listed(black, k), value in Listed(black, k));
    assert l == [] || l == [white] || l == [black] || l == [white, black];
    if |l| == 2 {
      assert l[1..] == [black] && [black][1..] == [];
    } else if |l| == 1 {
      assert l[1..] == [];
    }
  }

  /** An application's verdict on a domain, from its rows in any order: block-all first, then the precedence, then the
      global list. */
  lemma DomainVerdict(rules: map<int, seq<Rule>>, blockAll: set<int>, uid: int, name: string,
                      blockedGlobally: string -> bool, rows: seq<Row>, rows': seq<Row>)
    requires uid > 0 && uid in rules && rules[uid] == RulesOf(rows) && multiset(rows) == multiset(rows')
    ensures var d := Decide(rows', Host, CleanDomain(name));
      DomainBlocked(rules, blockAll, uid, name, blockedGlobally) ==
        (uid in blockAll || (if d.finished then d.blocked else blockedGlobally(CleanDomain(name))))
  {
    hide RulesOf, Evaluate, Decide;
    EvaluateDecides(rows, Host, CleanDomain(name));
    DecideIgnoresOrder(rows, rows', Host, CleanDomain(name));
  }

  /** Without rules of its own, block-all and the global list decide. */
  lemma WithoutRules(rules: map<int, seq<Rule>>, blockAll: set<int>, uid: int, name: string, blockedGlobally: string -> bool)
    requires uid !in rules || uid <= 0
    ensures DomainBlocked(rules, blockAll, uid, name, blockedGlobally) <==>
            uid in blockAll || blockedGlobally(CleanDomain(name))
  {
  }

  /** A leading "www." makes no difference, and only one is taken off. */
  lemma LeadingWww(rules: map<int, seq<Rule>>, blockAll: set<int>, uid: int, name: string, blockedGlobally: string -> bool)
    ensures CleanDomain("www." + name) == name
    ensures !("www." <= name) ==> DomainBlocked(rules, blockAll, uid, "www." + name, blockedGlobally) ==
                                  DomainBlocked(rules, blockAll, uid, name, blockedGlobally)
  {
    assert ("www." + name)[4..] == name;
  }

  /** What single rows say, in the words of the database. */
  lemma SingleRows(value: string, other: string)
    requires value != other
    ensures var black := [Row("blacklist", false, Some(value), Some("host"))];
      && Decide(black, Host, value) == CheckResult(true, true) && Decide(black, Host, other) == CheckResult(false, false)
      && Decide(black, Ip, value) == CheckResult(false, false)
    ensures var white := [Row("whitelist", false, Some(value), Some("ip"))];
      && Decide(white, Ip, value) == CheckResult(false, true) && Decide(white, Ip, other) == CheckResult(false, false)
      && Decide(white, Host, value) == CheckResult(false, false)
    ensures var only := [Row("whitelist", true, Some(value), Some("host"))];
      && Decide(only, Host, value) == CheckResult(false, true) && Decide(only, Host, other) == CheckResult(true, true)
      && Decide(only, Ip, other) == CheckResult(false, false)
  {
    var black := Row("blacklist", false, Some(value), Some("host"));
    var white := Row("whitelist", false, Some(value), Some("ip"));
    var only := Row("whitelist", true, Some(value), Some("host"));
    assert black in [black] && white in [white] && only in [only];
    assert "host" != "ip" && "blacklist" != "whitelist" by { assert |"host"| == 4 && |"ip"| == 2 && "blacklist"[0] == 'b'; }
    OneTarget(black, "blacklist", Host);
    OneTarget(white, "whitelist", Ip);
    OneTarget(only, "whitelist", Host);
    OneTarget(black, "whitelist", Host);
    OneTarget(black, "whitelist", Ip);
    OneTarget(black, "blacklist", Ip);
    OneTarget(white, "whitelist", Host);
    OneTarget(white, "blacklist", Host);
    OneTarget(white, "blacklist", Ip);
    OneTarget(only, "whitelist", Ip);
    OneTarget(only, "blacklist", Ip);
    hide Targets;
  }

  lemma OneTarget(r: Row, ruleType: string, k: TargetKind)
    ensures Targets([r], ruleType, k) == if Lists(r, ruleType, k) then {r.target.value} else {}
  {
    assert Targets([], ruleType, k) == {};
    TargetsGrow([], r, ruleType, k);
    assert [] + [r] == [r];
  }
}
