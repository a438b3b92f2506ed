/**
 * Finding the service for an authority and a path. The index by authority tier,
 * exact path and sorted prefixes answers like a scan of the flat list of rules.
 */
module ServiceMatchers {
  import opened Common

  // A wildcard pattern has at least the star.
  type Pattern = s: string | |s| > 0 witness "*"

  datatype Authority = ExactAuthority(value: string) | WildcardAuthority(pattern: Pattern) | AnyAuthority

  datatype PathMatcher = ExactPath(value: string) | PrefixPath(value: string)

  datatype MatchEntry = MatchEntry(authority: Authority, path: PathMatcher)

  // The services in the order in which the configuration map happens to list them.
  datatype Service = Service(name: string, entries: seq<MatchEntry>)

  // ---- The flat list of rules -----------------------------------------------------------

  // A wildcard "*.x.com" is kept as the suffix ".x.com".
  datatype Key = ExactKey(value: string) | SuffixKey(suffix: string) | AnyKey

  datatype Rule = Rule(key: Key, path: PathMatcher, service: string)

  function KeyOf(a: Authority): Key {
    match a
    case ExactAuthority(v) => ExactKey(v)
    case WildcardAuthority(p) => SuffixKey(p[1..])
    case AnyAuthority => AnyKey
  }

  function RulesOf(name: string, entries: seq<MatchEntry>): seq<Rule> {
    if |entries| == 0 then []
    else
      var last := entries[|entries| - 1];
      RulesOf(name, entries[..|entries| - 1]) + [Rule(KeyOf(last.authority), last.path, name)]
  }

  // All rules of all services, as a scan would go through them.
  function Rules(services: seq<Service>): seq<Rule> {
    if |services| == 0 then []
    else
      var last := services[|services| - 1];
      Rules(services[..|services| - 1]) + RulesOf(last.name, last.entries)
  }

  // Everything after a first label without dots, the dot included.
  ghost predicate AfterLabel(authority: string, suffix: string) {
    exists dot :: FirstDot(authority, dot) && authority[dot..] == suffix
  }

  predicate FirstDot(authority: string, dot: int) {
    0 <= dot < |authority| && authority[dot] == '.' && forall k :: 0 <= k < dot ==> authority[k] != '.'
  }

  ghost predicate AuthorityMatches(key: Key, authority: string) {
    match key
    case ExactKey(v) => v == authority
    case SuffixKey(suffix) => AfterLabel(authority, suffix)
    case AnyKey => true
  }

  predicate PathMatches(m: PathMatcher, path: string) {
    match m
    case ExactPath(v) => v == path
    case PrefixPath(v) => v <= path
  }

  ghost predicate Matches(r: Rule, authority: string, path: string) {
    AuthorityMatches(r.key, authority) && PathMatches(r.path, path)
  }

  function Tier(key: Key): nat {
    match key
    case ExactKey(_) => 2
    case SuffixKey(_) => 1
    case AnyKey => 0
  }

  // Authority tier first, then exact paths over prefixes, then longer prefixes.
  predicate Better(a: Rule, b: Rule) {
    if Tier(a.key) != Tier(b.key) then Tier(a.key) > Tier(b.key)
    else if a.path.ExactPath? != b.path.ExactPath? then a.path.ExactPath?
    else a.path.PrefixPath? && |a.path.value| > |b.path.value|
  }

  // r is what a scan of the rules for the best match can pick.
  ghost predicate Best(rules: seq<Rule>, authority: string, path: string, r: Rule) {
    && r in rules && Matches(r, authority, path)
    && forall q :: q in rules && Matches(q, authority, path) ==> !Better(q, r)
  }

  ghost predicate Answers(rules: seq<Rule>, authority: string, path: string, answer: Option<string>) {
    match answer
    case Some(service) => exists r :: Best(rules, authority, path, r) && r.service == service
    case None => forall r :: r in rules ==> !Matches(r, authority, path)
  }

  ghost predicate NoDuplicates(rules: seq<Rule>) {
    forall a, b :: a in rules && b in rules && a.key == b.key && a.path == b.path ==> a == b
  }

  lemma SameSuffix(authority: string, a: string, b: string)
    requires AfterLabel(authority, a) && AfterLabel(authority, b)
    ensures a == b
  {
    var i :| FirstDot(authority, i) && authority[i..] == a;
    var j :| FirstDot(authority, j) && authority[j..] == b;
  }

  /** Without duplicate rules the best match is one rule. */
  lemma BestIsUnique(rules: seq<Rule>, authority: string, path: string, a: Rule, b: Rule)
    requires NoDuplicates(rules) && Best(rules, authority, path, a) && Best(rules, authority, path, b)
    ensures a == b
  {
    assert !Better(a, b) && !Better(b, a);
    if a.key.SuffixKey? {
      SameSuffix(authority, a.key.suffix, b.key.suffix);
    }
  }

  /** The answer depends on the set of rules only, not on the order they are listed in. */
  lemma OrderIrrelevant(rules: seq<Rule>, other: seq<Rule>, authority: string, path: string, x: Option<string>, y: Option<string>)
    requires NoDuplicates(rules) && forall r :: r in rules <==> r in other
    requires Answers(rules, authority, path, x) && Answers(other, authority, path, y)
    ensures x == y
  {
    if x.Some? && y.Some? {
      var a :| Best(rules, authority, path, a) && a.service == x.value;
      var b :| Best(other, authority, path, b) && b.service == y.value;
      BestIsUnique(rules, authority, path, a, b);
    }
  }

  // ---- The rules as they are configured -------------------------------------------------------

  // A configured authority admits a name: "*.x.com" any single label in front of ".x.com".
  ghost predicate Admits(a: Authority, authority: string) {
    match a
    case ExactAuthority(v) => authority == v
    case WildcardAuthority(p) => exists host :: SingleLabel(host) && authority == host + p[1..] && |p| > 1 && p[1] == '.'
    case AnyAuthority => true
  }

  ghost predicate SingleLabel(host: string) {
    '.' !in host
  }

  ghost predicate Fits(e: MatchEntry, authority: string, path: string) {
    Admits(e.authority, authority) && if e.path.ExactPath? then path == e.path.value else e.path.value <= path
  }

  // e is at least as specific as f: exact before wildcard before any authority, then
  // exact before prefix paths, then the longer prefix.
  predicate AsSpecific(e: MatchEntry, f: MatchEntry) {
    && (f.authority.ExactAuthority? ==> e.authority.ExactAuthority?)
    && (f.authority.WildcardAuthority? ==> !e.authority.AnyAuthority?)
    && (e.authority.ExactAuthority? == f.authority.ExactAuthority? && e.authority.AnyAuthority? == f.authority.AnyAuthority? ==>
          && (f.path.ExactPath? ==> e.path.ExactPath?)
          && (e.path.PrefixPath? && f.path.PrefixPath? ==> |e.path.value| >= |f.path.value|))
  }

  // Service i lists the entry.
  predicate Lists(services: seq<Service>, i: nat, e: MatchEntry) {
    i < |services| && e in services[i].entries
  }

  function RuleOf(e: MatchEntry, name: string): Rule {
    Rule(KeyOf(e.authority), e.path, name)
  }

  lemma KeyAdmits(a: Authority, authority: string)
    ensures AuthorityMatches(KeyOf(a), authority) <==> Admits(a, authority)
  {
    if a.WildcardAuthority? {
      var suffix := a.pattern[1..];
      if AfterLabel(authority, suffix) {
        var dot :| FirstDot(authority, dot) && authority[dot..] == suffix;
        assert suffix[0] == '.' && authority == authority[..dot] + suffix && SingleLabel(authority[..dot]);
      }
      if Admits(a, authority) {
        var host :| SingleLabel(host) && authority == host + suffix;
        assert FirstDot(authority, |host|) && authority[|host|..] == suffix;
      }
    }
  }

  lemma {:induction false} RulesOfEntries(name: string, entries: seq<MatchEntry>, r: Rule)
    ensures r in RulesOf(name, entries) <==> exists e :: e in entries && r == RuleOf(e, name)
  {
    if |entries| > 0 {
      var rest, last := entries[..|entries| - 1], entries[|entries| - 1];
      RulesOfEntries(name, rest, r);
      assert entries == rest + [last] && RulesOf(name, entries) == RulesOf(name, rest) + [RuleOf(last, name)];
      assert last in entries;
    }
  }

  lemma {:induction false} RulesAreConfigured(services: seq<Service>, r: Rule)
    ensures r in Rules(services) <==> exists i: nat, e :: Lists(services, i, e) && r == RuleOf(e, services[i].name)
  {
    if |services| > 0 {
      var rest, last := services[..|services| - 1], services[|services| - 1];
      RulesAreConfigured(rest, r);
      RulesOfEntries(last.name, last.entries, r);
      if i: nat, e :| Lists(rest, i, e) && r == RuleOf(e, rest[i].name) {
        assert Lists(services, i, e);
      }
      if e :| e in last.entries && r == RuleOf(e, last.name) {
        assert Lists(services, |services| - 1, e);
      }
      if i: nat, e :| Lists(services, i, e) && r == RuleOf(e, services[i].name) {
        assert i < |services| - 1 ==> Lists(rest, i, e);
      }
    }
  }

  // The service of an entry that fits, and that is as specific as any other that does.
  ghost predicate Chosen(services: seq<Service>, authority: string, path: string, i: nat, e: MatchEntry) {
    && Lists(services, i, e) && Fits(e, authority, path)
    && forall j: nat, f :: Lists(services, j, f) && Fits(f, authority, path) ==> AsSpecific(e, f)
  }

  ghost predicate AnswersAsConfigured(services: seq<Service>, authority: string, path: string, answer: Option<string>) {
    match answer
    case Some(name) => exists i: nat, e :: Chosen(services, authority, path, i, e) && services[i].name == name
    case None => forall i: nat, e :: Lists(services, i, e) ==> !Fits(e, authority, path)
  }

  /** The answer is the service of a most specific configured entry that fits; none means that none fits. */
  lemma AnswerIsConfigured(services: seq<Service>, authority: string, path: string, answer: Option<string>)
    requires Answers(Rules(services), authority, path, answer)
    ensures AnswersAsConfigured(services, authority, path, answer)
  {
    forall i: nat, e | Lists(services, i, e)
      ensures RuleOf(e, services[i].name) in Rules(services)
      ensures Matches(RuleOf(e, services[i].name), authority, path) <==> Fits(e, authority, path)
    {
      RulesAreConfigured(services, RuleOf(e, services[i].name));
      KeyAdmits(e.authority, authority);
    }
    if answer.Some? {
      var r :| Best(Rules(services), authority, path, r) && r.service == answer.value;
      RulesAreConfigured(services, r);
      var i: nat, e :| Lists(services, i, e) && r == RuleOf(e, services[i].name);
      forall j: nat, f | Lists(services, j, f) && Fits(f, authority, path) ensures AsSpecific(e, f) {
        assert !Better(RuleOf(f, services[j].name), r);
      }
      assert Chosen(services, authority, path, i, e);
    }
  }

  // ---- Rules for the paths of one authority ------------------------------------------------

  datatype PrefixRule = PrefixRule(prefix: string, service: string)

  datatype PathRuleSet = PathRuleSet(exact: map<string, string>, prefixes: seq<PrefixRule>)

  const NO_RULES := PathRuleSet(map[], [])

  // No rule for the same authority and path comes before r.
  ghost predicate ComesFirst(rules: seq<Rule>, r: Rule) {
    exists i :: 0 <= i < |rules| && rules[i] == r
      && forall j :: 0 <= j < i ==> rules[j].key != r.key || rules[j].path != r.path
  }

  lemma StillFirst(rules: seq<Rule>, r: Rule, q: Rule)
    requires ComesFirst(rules, r)
    ensures ComesFirst(rules + [q], r) && r in rules
  {
    var i :| 0 <= i < |rules| && rules[i] == r && forall j :: 0 <= j < i ==> rules[j].key != r.key || rules[j].path != r.path;
    assert (rules + [q])[i] == r;
  }

  // The set holds the rules of one key: of equal exact paths the first one added.
  ghost predicate Holds(held: PathRuleSet, rules: seq<Rule>, key: Key) {
    && (forall p :: p in held.exact ==>
          Rule(key, ExactPath(p), held.exact[p]) in rules && ComesFirst(rules, Rule(key, ExactPath(p), held.exact[p])))
    && (forall p, s :: Rule(key, ExactPath(p), s) in rules ==> p in held.exact)
    && (forall p, s :: PrefixRule(p, s) in held.prefixes <==> Rule(key, PrefixPath(p), s) in rules)
  }

  function AddRule(held: PathRuleSet, path: PathMatcher, service: string): PathRuleSet {
    match path
    case ExactPath(v) => if v in held.exact then held else held.(exact := held.exact[v := service])
    case PrefixPath(v) => held.(prefixes := held.prefixes + [PrefixRule(v, service)])
  }

  lemma AddRuleHolds(held: PathRuleSet, rules: seq<Rule>, r: Rule)
    requires Holds(held, rules, r.key)
    ensures Holds(AddRule(held, r.path, r.service), rules + [r], r.key)
  {
    forall p | p in held.exact ensures ComesFirst(rules + [r], Rule(r.key, ExactPath(p), held.exact[p])) {
      StillFirst(rules, Rule(r.key, ExactPath(p), held.exact[p]), r);
    }
    if r.path.ExactPath? && r.path.value !in held.exact {
      assert (rules + [r])[|rules|] == r;
      assert forall j :: 0 <= j < |rules| ==> rules[j] in rules && (rules[j].key != r.key || rules[j].path != r.path);
      assert ComesFirst(rules + [r], r);
    }
  }

  lemma OtherRuleHolds(held: PathRuleSet, rules: seq<Rule>, r: Rule, key: Key)
    requires Holds(held, rules, key) && r.key != key
    ensures Holds(held, rules + [r], key)
  {
    forall p | p in held.exact ensures ComesFirst(rules + [r], Rule(key, ExactPath(p), held.exact[p])) {
      StillFirst(rules, Rule(key, ExactPath(p), held.exact[p]), r);
    }
  }

  ghost predicate LongestFirst(prefixes: seq<PrefixRule>) {
    forall i, j :: 0 <= i < j < |prefixes| ==> |prefixes[i].prefix| >= |prefixes[j].prefix|
  }

  method InsertByLength(sorted0: seq<PrefixRule>, x: PrefixRule) returns (sorted: seq<PrefixRule>)
    requires LongestFirst(sorted0)
    ensures LongestFirst(sorted) && multiset(sorted) == multiset(sorted0) + multiset{x}
  {
    var k := 0;
    while k < |sorted0| && |sorted0[k].prefix| >= |x.prefix|
      invariant 0 <= k <= |sorted0|
      invariant forall j :: 0 <= j < k ==> |sorted0[j].prefix| >= |x.prefix|
    {
      k := k + 1;
    }
    sorted := sorted0[..k] + [x] + sorted0[k..];
    InsertedInOrder(sorted0, x, k);
    assert sorted0 == sorted0[..k] + sorted0[k..];
    assert multiset(sorted0) == multiset(sorted0[..k]) + multiset(sorted0[k..]);
    assert multiset(sorted) == multiset(sorted0[..k] + [x]) + multiset(sorted0[k..]);
  }

  lemma InsertedInOrder(sorted: seq<PrefixRule>, x: PrefixRule, k: nat)
    requires LongestFirst(sorted) && k <= |sorted|
    requires forall j :: 0 <= j < k ==> |sorted[j].prefix| >= |x.prefix|
    requires k < |sorted| ==> |sorted[k].prefix| < |x.prefix|
    ensures LongestFirst(sorted[..k] + [x] + sorted[k..])
  {
    var after := sorted[..k] + [x] + sorted[k..];
    forall i | 0 <= i < |after| ensures after[i] == if i < k then sorted[i] else if i == k then x else sorted[i - 1] {}
  }

  // Sorts the prefixes by descending length.
  method Finalize(set0: PathRuleSet) returns (held: PathRuleSet)
    ensures held.exact == set0.exact
    ensures LongestFirst(held.prefixes) && multiset(held.prefixes) == multiset(set0.prefixes)
  {
    var sorted: seq<PrefixRule> := [];
    for i := 0 to |set0.prefixes|
      invariant LongestFirst(sorted) && multiset(sorted) == multiset(set0.prefixes[..i])
    {
      sorted := InsertByLength(sorted, set0.prefixes[i]);
      assert set0.prefixes[..i + 1] == set0.prefixes[..i] + [set0.prefixes[i]];
    }
    assert set0.prefixes[..|set0.prefixes|] == set0.prefixes;
    held := set0.(prefixes := sorted);
  }

  lemma FinalizedHolds(set0: PathRuleSet, held: PathRuleSet, rules: seq<Rule>, key: Key)
    requires Holds(set0, rules, key) && held.exact == set0.exact
    requires multiset(held.prefixes) == multiset(set0.prefixes)
    ensures Holds(held, rules, key)
  {
    forall x: PrefixRule ensures x in held.prefixes <==> x in set0.prefixes {
      assert x in multiset(held.prefixes) <==> x in multiset(set0.prefixes);
    }
  }

  // The best rule of one key: an exact path, else the first, so longest, prefix.
  method MatchPath(held: PathRuleSet, path: string, ghost rules: seq<Rule>, ghost key: Key)
    returns (answer: Option<string>, ghost best: Rule)
    requires Holds(held, rules, key) && LongestFirst(held.prefixes)
    ensures answer.None? ==> forall r :: r in rules && r.key == key ==> !PathMatches(r.path, path)
    ensures answer.Some? ==>
      && best in rules && best.key == key && PathMatches(best.path, path) && best.service == answer.value
      && forall r :: r in rules && r.key == key && PathMatches(r.path, path) ==> !Better(r, best)
  {
    best := Rule(key, ExactPath(path), "");
    if path in held.exact {
      best := Rule(key, ExactPath(path), held.exact[path]);
      return Some(held.exact[path]), best;
    }
    for i := 0 to |held.prefixes|
      invariant forall j :: 0 <= j < i ==> !(held.prefixes[j].prefix <= path)
    {
      var rule := held.prefixes[i];
      if rule.prefix <= path {
        best := Rule(key, PrefixPath(rule.prefix), rule.service);
        assert rule in held.prefixes;
        forall r | r in rules && r.key == key && PathMatches(r.path, path) ensures !Better(r, best) {
          assert r == Rule(key, r.path, r.service);
          if r.path.PrefixPath? {
            assert PrefixRule(r.path.value, r.service) in held.prefixes;
          }
        }
        return Some(rule.service), best;
      }
    }
    forall r | r in rules && r.key == key ensures !PathMatches(r.path, path) {
      assert r == Rule(key, r.path, r.service);
      if r.path.PrefixPath? {
        assert r == Rule(key, PrefixPath(r.path.value), r.service);
        assert PrefixRule(r.path.value, r.service) in held.prefixes;
      } else {
        assert r == Rule(key, ExactPath(r.path.value), r.service);
      }
    }
    return None, best;
  }

  // ---- The index ------------------------------------------------------------------------------

  datatype Index = Index(exact: map<string, PathRuleSet>, wildcard: map<string, PathRuleSet>, any: PathRuleSet)

  // Each rule set holds the rules of its key, and every key with a rule has a set.
  ghost predicate IndexOk(ix: Index, rules: seq<Rule>) {
    && (forall v :: v in ix.exact ==> Holds(ix.exact[v], rules, ExactKey(v)))
    && (forall v :: v in ix.wildcard ==> Holds(ix.wildcard[v], rules, SuffixKey(v)))
    && Holds(ix.any, rules, AnyKey)
    && (forall r :: r in rules ==>
          (r.key.ExactKey? ==> r.key.value in ix.exact) && (r.key.SuffixKey? ==> r.key.suffix in ix.wildcard))
  }

  function SetFor(sets: map<string, PathRuleSet>, key: string): PathRuleSet {
    if key in sets then sets[key] else NO_RULES
  }

  function AddToIndex(ix: Index, r: Rule): Index {
    match r.key
    case ExactKey(v) => ix.(exact := ix.exact[v := AddRule(SetFor(ix.exact, v), r.path, r.service)])
    case SuffixKey(v) => ix.(wildcard := ix.wildcard[v := AddRule(SetFor(ix.wildcard, v), r.path, r.service)])
    case AnyKey => ix.(any := AddRule(ix.any, r.path, r.service))
  }

  lemma AddToIndexOk(ix: Index, rules: seq<Rule>, r: Rule)
    requires IndexOk(ix, rules)
    ensures IndexOk(AddToIndex(ix, r), rules + [r])
  {
    var own := match r.key
      case ExactKey(v) => SetFor(ix.exact, v)
      case SuffixKey(v) => SetFor(ix.wildcard, v)
      case AnyKey => ix.any;
    assert Holds(own, rules, r.key);
    AddRuleHolds(own, rules, r);
    forall v | v in ix.exact && r.key != ExactKey(v) ensures Holds(ix.exact[v], rules + [r], ExactKey(v)) {
      OtherRuleHolds(ix.exact[v], rules, r, ExactKey(v));
    }
    forall v | v in ix.wildcard && r.key != SuffixKey(v) ensures Holds(ix.wildcard[v], rules + [r], SuffixKey(v)) {
      OtherRuleHolds(ix.wildcard[v], rules, r, SuffixKey(v));
    }
    if r.key != AnyKey {
      OtherRuleHolds(ix.any, rules, r, AnyKey);
    }
  }

  method BuildIndex(services: seq<Service>) returns (ix: Index)
    ensures IndexOk(ix, Rules(services))
  {
    ix := Index(map[], map[], NO_RULES);
    for i := 0 to |services|
      invariant IndexOk(ix, Rules(services[..i]))
    {
      var name, entries := services[i].name, services[i].entries;
      ghost var base := Rules(services[..i]);
      assert base + RulesOf(name, entries[..0]) == base;
      for j := 0 to |entries|
        invariant IndexOk(ix, base + RulesOf(name, entries[..j]))
      {
        var r := Rule(KeyOf(entries[j].authority), entries[j].path, name);
        AddToIndexOk(ix, base + RulesOf(name, entries[..j]), r);
        assert entries[..j + 1][..j] == entries[..j];
        assert base + RulesOf(name, entries[..j]) + [r] == base + RulesOf(name, entries[..j + 1]);
        ix := AddToIndex(ix, r);
      }
      assert entries[..|entries|] == entries;
      assert services[..i + 1][..i] == services[..i];
    }
    assert services[..|services|] == services;
  }

  ghost predicate Finalized(sets: map<string, PathRuleSet>) {
    forall v :: v in sets ==> LongestFirst(sets[v].prefixes)
  }

  ghost predicate SetsHold(sets: map<string, PathRuleSet>, rules: seq<Rule>, wrap: string -> Key) {
    forall v :: v in sets ==> Holds(sets[v], rules, wrap(v))
  }

  method FinalizeAll(sets0: map<string, PathRuleSet>, ghost rules: seq<Rule>, ghost wrap: string -> Key)
    returns (sets: map<string, PathRuleSet>)
    requires SetsHold(sets0, rules, wrap)
    ensures sets.Keys == sets0.Keys && Finalized(sets) && SetsHold(sets, rules, wrap)
  {
    sets := sets0;
    var todo := sets0.Keys;
    while todo != {}
      invariant todo <= sets0.Keys == sets.Keys && SetsHold(sets, rules, wrap)
      invariant forall v :: v in sets && v !in todo ==> LongestFirst(sets[v].prefixes)
    {
      var v :| v in todo;
      var done := Finalize(sets[v]);
      FinalizedHolds(sets[v], done, rules, wrap(v));
      sets := sets[v := done];
      todo := todo - {v};
    }
  }

  /** Built from services in any order, it answers like a scan of their rules. */
  class ServiceMatcher {
    var exactRules: map<string, PathRuleSet>
    var wildcardRules: map<string, PathRuleSet>
    var anyRules: PathRuleSet
    ghost var rules: seq<Rule>
    ghost var configured: seq<Service>

    ghost predicate Valid()
      reads this
    {
      && IndexOk(Index(exactRules, wildcardRules, anyRules), rules)
      && Finalized(exactRules) && Finalized(wildcardRules) && LongestFirst(anyRules.prefixes)
      && rules == Rules(configured)
    }

    constructor (services: seq<Service>)
      ensures Valid() && configured == services
    {
      var ix := BuildIndex(services);
      ghost var flat := Rules(services);
      var exact := FinalizeAll(ix.exact, flat, v => ExactKey(v));
      var wildcard := FinalizeAll(ix.wildcard, flat, v => SuffixKey(v));
      var any := Finalize(ix.any);
      FinalizedHolds(ix.any, any, flat, AnyKey);
      exactRules, wildcardRules, anyRules, rules, configured := exact, wildcard, any, flat, services;
    }

    /** The service for an authority and a path, where no path stands for "/". */
    method Match(authority: string, path: string) returns (answer: Option<string>)
      requires Valid()
      ensures Answers(rules, authority, if path == "" then "/" else path, answer)
      ensures AnswersAsConfigured(configured, authority, if path == "" then "/" else path, answer)
    {
      var effective := if path == "" then "/" else path;
      answer := MatchByTier(authority, effective);
      AnswerIsConfigured(configured, authority, effective, answer);
    }

    method MatchByTier(authority: string, effective: string) returns (answer: Option<string>)
      requires Valid()
      ensures Answers(rules, authority, effective, answer)
    {
      ghost var best;
      if authority in exactRules {
        answer, best := MatchPath(exactRules[authority], effective, rules, ExactKey(authority));
        if answer.Some? {
          assert Best(rules, authority, effective, best);
          return;
        }
      }
      assert forall r :: r in rules && r.key.ExactKey? ==> !Matches(r, authority, effective);
      var dot := FindDot(authority);
      if dot < |authority| && authority[dot..] in wildcardRules {
        answer, best := MatchPath(wildcardRules[authority[dot..]], effective, rules, SuffixKey(authority[dot..]));
        if answer.Some? {
          assert AfterLabel(authority, authority[dot..]);
          assert Best(rules, authority, effective, best);
          return;
        }
      }
      assert forall r :: r in rules && r.key.SuffixKey? ==> !Matches(r, authority, effective);
      answer, best := MatchPath(anyRules, effective, rules, AnyKey);
      assert answer.Some? ==> Best(rules, authority, effective, best);
    }
  }

  // The position of the first dot, or the length if there is none.
  method FindDot(authority: string) returns (dot: nat)
    ensures dot <= |authority| && (dot < |authority| ==> FirstDot(authority, dot))
    ensures dot == |authority| ==> forall k :: 0 <= k < |authority| ==> authority[k] != '.'
  {
    dot := 0;
    while dot < |authority| && authority[dot] != '.'
      invariant dot <= |authority| && forall k :: 0 <= k < dot ==> authority[k] != '.'
    {
      dot := dot + 1;
    }
  }
}
