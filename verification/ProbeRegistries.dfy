/** Probe registration and arbitration: the highest-priority match answers, and a tie
    fails loudly. */
module ProbeRegistries {
  import opened Wrappers
  import opened Text

  /** A probe's declared `(scheme, host_pattern, priority)` and a handle on the probe. */
  datatype Registration = Registration(scheme: string, hostPattern: Option<string>, priority: nat, handle: int) {
    function Identity(): string {
      Derive(scheme, hostPattern, priority)
    }
  }

  function Prefix(scheme: string, hostPattern: Option<string>): string {
    match hostPattern
    case None => scheme
    case Some(host) => scheme + "@" + host
  }

  /** Wire form `scheme[@host_pattern]#priority`. */
  function Derive(scheme: string, hostPattern: Option<string>, priority: nat): string {
    Prefix(scheme, hostPattern) + "#" + Decimal(priority)
  }

  type Registrations = map<string, Registration>

  predicate FiledByIdentity(regs: Registrations) {
    forall id :: id in regs ==> regs[id].Identity() == id
  }

  datatype Selected = Selected(identity: string, handle: int)

  datatype NoProbe =
    | UnregisteredScheme(scheme: string)
    | NoHostMatch(scheme: string)
    | PriorityTie(scheme: string, priority: nat, candidates: set<string>)

  // --------------------------------------------------------------- hosts

  /** What follows the first `://`, if there is one. */
  function AfterAuthorityMark(key: string): Option<string> {
    if |key| < 3 then None
    else if key[..3] == "://" then Some(key[3..])
    else AfterAuthorityMark(key[1..])
  }

  predicate EndsHost(c: char) {
    c == '/' || c == '?' || c == '#'
  }

  function HostPrefix(rest: string): string {
    if rest == "" || EndsHost(rest[0]) then "" else [rest[0]] + HostPrefix(rest[1..])
  }

  /** The host of a dependency key; an empty authority is no host. */
  function HostOf(key: string): Option<string> {
    match AfterAuthorityMark(key)
    case None => None
    case Some(rest) => if HostPrefix(rest) == "" then None else Some(HostPrefix(rest))
  }

  predicate HostPatternMatches(pattern: Option<string>, host: Option<string>) {
    match pattern
    case None => true
    case Some(p) =>
      match host
      case None => false
      case Some(h) =>
        if p == "*" then true
        else if StartsWith(p, "*.") then
          var suffix := p[2..];
          |h| > |suffix| + 1 && h[|h| - |suffix| - 1..] == "." + suffix
        else p == h
  }

  lemma {:induction false} HostPrefixStops(rest: string)
    ensures HostPrefix(rest) <= rest
    ensures forall i :: 0 <= i < |HostPrefix(rest)| ==> !EndsHost(rest[i])
    ensures |HostPrefix(rest)| == |rest| || EndsHost(rest[|HostPrefix(rest)|])
  {
    if rest != "" && !EndsHost(rest[0]) {
      HostPrefixStops(rest[1..]);
      assert rest == [rest[0]] + rest[1..];
    }
  }

  /** A leading-wildcard pattern admits exactly the proper subdomains of its suffix. */
  lemma WildcardMeansProperSubdomain(suffix: string, host: string)
    ensures HostPatternMatches(Some("*." + suffix), Some(host)) <==>
            exists sub :: sub != "" && host == sub + "." + suffix
  {
    var p := "*." + suffix;
    assert p[..2] == "*." && p[2..] == suffix && p != "*";
    if HostPatternMatches(Some(p), Some(host)) {
      var sub := host[..|host| - |suffix| - 1];
      assert host == sub + host[|host| - |suffix| - 1..];
      assert host == sub + "." + suffix;
    }
    if sub :| sub != "" && host == sub + "." + suffix {
      assert host[|host| - |suffix| - 1..] == "." + suffix;
    }
  }

  // --------------------------------------------------------- arbitration

  predicate Matches(r: Registration, scheme: string, key: string) {
    r.scheme == scheme && HostPatternMatches(r.hostPattern, HostOf(key))
  }

  ghost function Matching(regs: Registrations, scheme: string, key: string): set<string> {
    set id | id in regs && Matches(regs[id], scheme, key)
  }

  ghost predicate IsTop(regs: Registrations, among: set<string>, top: nat) {
    && (exists id :: id in among && id in regs && regs[id].priority == top)
    && (forall id :: id in among && id in regs ==> regs[id].priority <= top)
  }

  ghost function Winners(regs: Registrations, among: set<string>, top: nat): set<string> {
    set id | id in among && id in regs && regs[id].priority == top
  }

  lemma {:induction false} TopExists(regs: Registrations, among: set<string>)
    requires among != {} && among <= regs.Keys
    ensures exists top: nat :: IsTop(regs, among, top)
  {
    var id :| id in among;
    if among == {id} {
      assert IsTop(regs, among, regs[id].priority);
    } else {
      TopExists(regs, among - {id});
      var top: nat :| IsTop(regs, among - {id}, top);
      var k :| k in among - {id} && k in regs && regs[k].priority == top;
      assert k in among;
      assert IsTop(regs, among, if regs[id].priority > top then regs[id].priority else top);
    }
  }

  /** The priority that wins among the matching registrations. */
  ghost function TopPriority(regs: Registrations, among: set<string>): (top: nat)
    requires among != {} && among <= regs.Keys
    ensures IsTop(regs, among, top)
  {
    TopExists(regs, among);
    var top: nat :| IsTop(regs, among, top);
    top
  }

  /** The outcome arbitration must have for a key. */
  ghost predicate Arbitrates(regs: Registrations, scheme: string, key: string, outcome: Result<Selected, NoProbe>) {
    var matching := Matching(regs, scheme, key);
    if forall id :: id in regs ==> regs[id].scheme != scheme then outcome == Err(UnregisteredScheme(scheme))
    else if matching == {} then outcome == Err(NoHostMatch(scheme))
    else
      var top := TopPriority(regs, matching);
      var winners := Winners(regs, matching, top);
      if exists a, b :: a in winners && b in winners && a != b then outcome == Err(PriorityTie(scheme, top, winners))
      else
        && outcome.Ok? && outcome.value.identity in winners
        && outcome.value == Selected(outcome.value.identity, regs[outcome.value.identity].handle)
  }

  class ProbeRegistry {
    var registrations: Registrations

    ghost predicate Valid()
      reads this
    {
      FiledByIdentity(registrations)
    }

    constructor ()
      ensures Valid() && registrations == map[]
    {
      registrations := map[];
    }

    /** Refused, and nothing changed, exactly when the identity is already taken. */
    method Register(probe: Registration) returns (r: Result<string, string>)
      requires Valid()
      modifies this
      ensures Valid()
      ensures r.Err? <==> probe.Identity() in old(registrations)
      ensures r.Err? ==> r.error == probe.Identity() && registrations == old(registrations)
      ensures r.Ok? ==> r.value == probe.Identity() && registrations == old(registrations)[probe.Identity() := probe]
    {
      var identity := probe.Identity();
      if identity in registrations {
        return Err(identity);
      }
      registrations := registrations[identity := probe];
      return Ok(identity);
    }

    method Deregister(identity: string) returns (removed: bool)
      requires Valid()
      modifies this
      ensures Valid()
      ensures removed <==> identity in old(registrations)
      ensures registrations == old(registrations) - {identity}
    {
      removed := identity in registrations;
      registrations := registrations - {identity};
    }

    method Select(scheme: string, key: string) returns (r: Result<Selected, NoProbe>)
      ensures Arbitrates(registrations, scheme, key, r)
    {
      hide Derive, HostOf, HostPatternMatches;
      var forScheme := set id | id in registrations && registrations[id].scheme == scheme;
      if forScheme == {} {
        assert forall id :: id in registrations && registrations[id].scheme == scheme ==> id in forScheme;
        return Err(UnregisteredScheme(scheme));
      }
      var someScheme :| someScheme in forScheme;
      assert registrations[someScheme].scheme == scheme;
      var host := HostOf(key);
      var matching := set id | id in forScheme && HostPatternMatches(registrations[id].hostPattern, host);
      assert matching == Matching(registrations, scheme, key);
      if matching == {} {
        return Err(NoHostMatch(scheme));
      }
      var first :| first in matching;
      var top := registrations[first].priority;
      var rest := matching - {first};
      while rest != {}
        invariant rest <= matching
        invariant IsTop(registrations, matching - rest, top)
        decreases rest
      {
        var id :| id in rest;
        rest := rest - {id};
        if registrations[id].priority > top {
          top := registrations[id].priority;
        }
      }
      assert matching - rest == matching;
      assert top == TopPriority(registrations, matching);
      var winners := set id | id in matching && registrations[id].priority == top;
      ghost var best :| best in matching && best in registrations && registrations[best].priority == top;
      assert best in winners;
      assert winners == Winners(registrations, matching, top);
      var winner :| winner in winners;
      if winners != {winner} {
        assert winners == {winner} + (winners - {winner});
        ghost var other :| other in winners - {winner};
        return Err(PriorityTie(scheme, top, winners));
      }
      return Ok(Selected(winner, registrations[winner].handle));
    }
  }

  // ------------------------------------------- what selection depends on

  /** Arbitration decides: a set of registrations has exactly one outcome for a key. */
  lemma ArbitrationIsAFunction(regs: Registrations, scheme: string, key: string,
                               a: Result<Selected, NoProbe>, b: Result<Selected, NoProbe>)
    requires Arbitrates(regs, scheme, key, a) && Arbitrates(regs, scheme, key, b)
    ensures a == b
  {
  }

  ghost predicate SoleTop(regs: Registrations, scheme: string, key: string, id: string) {
    && id in regs && Matches(regs[id], scheme, key)
    && forall other :: other in regs && other != id && Matches(regs[other], scheme, key) ==>
      regs[other].priority < regs[id].priority
  }

  /** A probe is selected exactly when one matching registration outranks every other, and
      it is that one. */
  lemma SelectsTheSoleTop(regs: Registrations, scheme: string, key: string, outcome: Result<Selected, NoProbe>,
                          id: string)
    requires Arbitrates(regs, scheme, key, outcome)
    ensures outcome.Ok? && outcome.value.identity == id <==> SoleTop(regs, scheme, key, id)
    ensures outcome.Ok? && outcome.value.identity == id ==> outcome.value == Selected(id, regs[id].handle)
  {
    var matching := Matching(regs, scheme, key);
    if SoleTop(regs, scheme, key, id) {
      assert id in matching;
      var top := TopPriority(regs, matching);
      assert regs[id].priority == top;
      assert forall w :: w in Winners(regs, matching, top) ==> w == id;
    }
    if outcome.Ok? && outcome.value.identity == id {
      assert matching != {};
      var top := TopPriority(regs, matching);
      forall other | other in regs && other != id && Matches(regs[other], scheme, key)
        ensures regs[other].priority < regs[id].priority
      {
        assert other in matching;
        assert other in Winners(regs, matching, top) <==> regs[other].priority == top;
      }
    }
  }

  /** Adding a registration changes the answer for a key that already had a probe or a tie
      exactly when it matches the key at the winning priority or above. */
  lemma AddingAProbe(regs: Registrations, added: Registration, scheme: string, key: string,
                     before: Result<Selected, NoProbe>, after: Result<Selected, NoProbe>)
    requires added.Identity() !in regs
    requires Arbitrates(regs, scheme, key, before)
    requires Arbitrates(regs[added.Identity() := added], scheme, key, after)
    requires before.Ok? || before.error.PriorityTie?
    ensures Matching(regs, scheme, key) != {}
    ensures before != after <==>
            Matches(added, scheme, key) && added.priority >= TopPriority(regs, Matching(regs, scheme, key))
  {
    hide Derive, HostOf, HostPatternMatches;
    var regs', id := regs[added.Identity() := added], added.Identity();
    var m, m' := Matching(regs, scheme, key), Matching(regs', scheme, key);
    assert m' == if Matches(added, scheme, key) then m + {id} else m;
    var k :| k in m;
    assert regs'[k].scheme == scheme;
    assert k in m';
    var top, top' := TopPriority(regs, m), TopPriority(regs', m');
    var w, w' := Winners(regs, m, top), Winners(regs', m', top');
    var t :| t in m && regs[t].priority == top;
    assert t in w && t in m' && regs'[t].priority == top;
    if !Matches(added, scheme, key) || added.priority < top {
      assert top' == top;
      assert w' == w;
    } else if added.priority > top {
      assert id in m' && regs'[id].priority == added.priority;
      assert top' == added.priority;
      assert w' == {id};
      assert forall a :: a in w' ==> a == id;
    } else {
      assert id in m' && regs'[id].priority == top;
      assert top' == top;
      assert w' == w + {id};
      assert id in w' && t in w' && id != t;
    }
  }

  // -------------------------------------------------- order of registering

  /** Registering a run of probes, if every one is accepted. */
  function RegisterAll(probes: seq<Registration>): Option<Registrations> {
    if probes == [] then Some(map[])
    else
      match RegisterAll(probes[..|probes| - 1])
      case None => None
      case Some(regs) =>
        var p := probes[|probes| - 1];
        if p.Identity() in regs then None else Some(regs[p.Identity() := p])
  }

  lemma {:induction false} RegisterAllHolds(probes: seq<Registration>)
    requires RegisterAll(probes).Some?
    ensures var regs := RegisterAll(probes).value;
            && (forall id :: id in regs <==> exists p :: p in probes && p.Identity() == id)
            && (forall p :: p in probes ==> p.Identity() in regs && regs[p.Identity()] == p)
  {
    hide Derive;
    if probes != [] {
      var init, last := probes[..|probes| - 1], probes[|probes| - 1];
      RegisterAllHolds(init);
      assert probes == init + [last];
      assert forall p :: p in probes <==> p in init || p == last;
    }
  }

  /** One call on the registry. */
  datatype RegistryCall = RegisterCall(probe: Registration) | DeregisterCall(identity: string)

  /** What a call leaves: a refused registration changes nothing. */
  function AfterCall(regs: Registrations, call: RegistryCall): Registrations {
    match call
    case RegisterCall(probe) => if probe.Identity() in regs then regs else regs[probe.Identity() := probe]
    case DeregisterCall(identity) => regs - {identity}
  }

  /** What a run of calls leaves of an empty registry. */
  function AfterCalls(calls: seq<RegistryCall>): Registrations {
    if calls == [] then map[] else AfterCall(AfterCalls(calls[..|calls| - 1]), calls[|calls| - 1])
  }

  method PerformCalls(calls: seq<RegistryCall>) returns (registry: ProbeRegistry)
    ensures fresh(registry) && registry.Valid() && registry.registrations == AfterCalls(calls)
  {
    hide Derive;
    registry := new ProbeRegistry();
    for i := 0 to |calls|
      invariant registry.Valid() && registry.registrations == AfterCalls(calls[..i]) && fresh(registry)
    {
      assert calls[..i + 1][..i] == calls[..i];
      match calls[i] {
        case RegisterCall(probe) => var _ := registry.Register(probe);
        case DeregisterCall(identity) => var _ := registry.Deregister(identity);
      }
    }
    assert calls[..|calls|] == calls;
  }

  /** Is the `k`-th call about this identity? */
  predicate Concerns(call: RegistryCall, identity: string) {
    match call
    case RegisterCall(probe) => probe.Identity() == identity
    case DeregisterCall(other) => other == identity
  }

  /** The registration of an identity that is live after the first `n` calls: the first accepted
      since the last time the identity was removed. */
  function LiveAfter(calls: seq<RegistryCall>, identity: string, n: nat): Option<Registration>
    requires n <= |calls|
  {
    if n == 0 then None
    else
      var before := LiveAfter(calls, identity, n - 1);
      if !Concerns(calls[n - 1], identity) then before
      else
        match calls[n - 1]
        case RegisterCall(probe) => if before.Some? then before else Some(probe)
        case DeregisterCall(_) => None
  }

  /** Over any interleaving of registrations and removals each identity's place in the registry
      is decided by the calls about that identity alone. */
  lemma {:induction false} LiveRegistrations(calls: seq<RegistryCall>, identity: string)
    ensures var regs := AfterCalls(calls);
            && FiledByIdentity(regs)
            && (identity in regs <==> LiveAfter(calls, identity, |calls|).Some?)
            && (identity in regs ==> LiveAfter(calls, identity, |calls|) == Some(regs[identity]))
  {
    hide Derive;
    if calls != [] {
      var init := calls[..|calls| - 1];
      LiveRegistrations(init, identity);
      LivePrefix(init, calls, identity, |init|);
    }
  }

  lemma {:induction false} LivePrefix(short: seq<RegistryCall>, long: seq<RegistryCall>, identity: string, n: nat)
    requires short <= long && n <= |short|
    ensures LiveAfter(short, identity, n) == LiveAfter(long, identity, n)
  {
    hide Concerns;
    if n > 0 {
      LivePrefix(short, long, identity, n - 1);
    }
  }

  /** Only the set of live registrations matters: runs of calls, in whatever order and with
      whatever removals and refusals between, that leave the same registrations live leave the
      same registry, and so the same answer for every key. */
  lemma OnlyLiveRegistrationsMatter(a: seq<RegistryCall>, b: seq<RegistryCall>, scheme: string, key: string,
                                    forA: Result<Selected, NoProbe>, forB: Result<Selected, NoProbe>)
    requires forall identity :: LiveAfter(a, identity, |a|) == LiveAfter(b, identity, |b|)
    requires Arbitrates(AfterCalls(a), scheme, key, forA) && Arbitrates(AfterCalls(b), scheme, key, forB)
    ensures AfterCalls(a) == AfterCalls(b) && forA == forB
  {
    hide Derive, LiveAfter, Arbitrates;
    forall identity
      ensures identity in AfterCalls(a) <==> identity in AfterCalls(b)
      ensures identity in AfterCalls(a) ==> AfterCalls(a)[identity] == AfterCalls(b)[identity]
    {
      LiveRegistrations(a, identity);
      LiveRegistrations(b, identity);
    }
    assert AfterCalls(a) == AfterCalls(b);
    ArbitrationIsAFunction(AfterCalls(a), scheme, key, forA, forB);
  }

  /** In particular runs that register the same probes in any order, all accepted, leave the
      same registry. */
  lemma RegistrationOrderIsIrrelevant(a: seq<Registration>, b: seq<Registration>)
    requires multiset(a) == multiset(b)
    requires RegisterAll(a).Some? && RegisterAll(b).Some?
    ensures RegisterAll(a) == RegisterAll(b)
  {
    RegisterAllHolds(a);
    RegisterAllHolds(b);
    assert forall p :: p in a <==> p in multiset(a);
    assert forall p :: p in b <==> p in multiset(b);
    var ra, rb := RegisterAll(a).value, RegisterAll(b).value;
    forall id ensures id in ra <==> id in rb
              ensures id in ra ==> ra[id] == rb[id]
    {
    }
    assert ra == rb;
  }

  /** A run of registrations is accepted exactly when their identities differ pairwise. */
  lemma {:induction false} AcceptedExactlyWhenDistinct(probes: seq<Registration>)
    ensures RegisterAll(probes).Some? <==>
            forall i, j :: 0 <= i < j < |probes| ==> probes[i].Identity() != probes[j].Identity()
  {
    hide Derive;
    if probes != [] {
      var n := |probes| - 1;
      AcceptedExactlyWhenDistinct(probes[..n]);
      if RegisterAll(probes[..n]).Some? {
        RegisterAllHolds(probes[..n]);
        if probes[n].Identity() in RegisterAll(probes[..n]).value {
          var p :| p in probes[..n] && p.Identity() == probes[n].Identity();
          var i :| 0 <= i < n && probes[..n][i] == p;
          assert probes[i].Identity() == probes[n].Identity();
        } else {
          forall i | 0 <= i < n ensures probes[i].Identity() != probes[n].Identity() {
            assert probes[..n][i] in probes[..n];
          }
        }
      }
    }
  }

  // ------------------------------------------------- identity collisions

  lemma {:induction false} HashSplits(a: string, x: string, b: string, y: string)
    requires a + "#" + x == b + "#" + y
    requires forall i :: 0 <= i < |x| ==> x[i] != '#'
    requires forall i :: 0 <= i < |y| ==> y[i] != '#'
    ensures a == b && x == y
  {
    var s, t := a + "#" + x, b + "#" + y;
    assert s[|s| - 1] == if x == [] then '#' else x[|x| - 1];
    assert t[|t| - 1] == if y == [] then '#' else y[|y| - 1];
    if x != [] && y != [] {
      assert a + "#" + x[..|x| - 1] == s[..|s| - 1];
      assert b + "#" + y[..|y| - 1] == t[..|t| - 1];
      HashSplits(a, x[..|x| - 1], b, y[..|y| - 1]);
      assert x == x[..|x| - 1] + [s[|s| - 1]] && y == y[..|y| - 1] + [t[|t| - 1]];
    } else {
      assert a == s[..|s| - 1] && b == t[..|t| - 1];
    }
  }

  /** Does one scheme read as another followed by a host part? */
  predicate ReadsAsHosted(longer: string, shorter: string) {
    StartsWith(longer, shorter + "@")
  }

  /** Exactly when two given triples share an identity: when their priorities are equal and
      their scheme and host parts spell the same prefix. */
  lemma SharedIdentity(s: string, h: Option<string>, p: nat, t: string, g: Option<string>, q: nat)
    ensures Derive(s, h, p) == Derive(t, g, q) <==> p == q && Prefix(s, h) == Prefix(t, g)
  {
    hide Prefix, Decimal;
    if Derive(s, h, p) == Derive(t, g, q) {
      HashSplits(Prefix(s, h), Decimal(p), Prefix(t, g), Decimal(q));
      DecimalRoundTrip(p);
      DecimalRoundTrip(q);
    }
  }

  /** Exactly when two schemes admit different triples with one identity, so that the second is
      refused although it ties with nothing: when one scheme is the other continued by `@`. */
  lemma IdentityCollisions(s: string, t: string)
    ensures (exists h: Option<string>, g: Option<string>, p: nat, q: nat ::
               Derive(s, h, p) == Derive(t, g, q) && (s, h, p) != (t, g, q))
            <==> ReadsAsHosted(s, t) || ReadsAsHosted(t, s)
  {
    if h: Option<string>, g: Option<string>, p: nat, q: nat :|
       Derive(s, h, p) == Derive(t, g, q) && (s, h, p) != (t, g, q) {
      CollisionMeansHosted(s, h, p, t, g, q);
    }
    if ReadsAsHosted(s, t) {
      HostedCollides(s, t);
    } else if ReadsAsHosted(t, s) {
      HostedCollides(t, s);
      var h: Option<string>, g: Option<string>, p: nat, q: nat :| Derive(t, h, p) == Derive(s, g, q)
        && (t, h, p) != (s, g, q);
      assert Derive(s, g, q) == Derive(t, h, p) && (s, g, q) != (t, h, p);
    }
  }

  lemma HostedCollides(longer: string, shorter: string)
    requires ReadsAsHosted(longer, shorter)
    ensures exists h: Option<string>, g: Option<string>, p: nat, q: nat ::
              Derive(longer, h, p) == Derive(shorter, g, q) && (longer, h, p) != (shorter, g, q)
  {
    var host := longer[|shorter| + 1..];
    assert longer == longer[..|shorter| + 1] + host == shorter + "@" + host;
    assert Derive(longer, None, 0) == Derive(shorter, Some(host), 0);
  }

  lemma CollisionMeansHosted(s: string, h: Option<string>, p: nat, t: string, g: Option<string>, q: nat)
    requires Derive(s, h, p) == Derive(t, g, q) && (s, h, p) != (t, g, q)
    ensures p == q
    ensures ReadsAsHosted(s, t) || ReadsAsHosted(t, s)
  {
    SharedIdentity(s, h, p, t, g, q);
    var a, b := Prefix(s, h), Prefix(t, g);
    assert a == b;
    assert a[..|s|] == s && b[..|t|] == t;
    assert |s| == |t| ==> s == t;
    PrefixDeterminesHost(s, h, g);
    if |s| < |t| {
      assert t[..|s| + 1] == a[..|s| + 1] == s + "@";
    } else if |t| < |s| {
      assert s[..|t| + 1] == b[..|t| + 1] == t + "@";
    }
  }

  lemma PrefixDeterminesHost(s: string, h: Option<string>, g: Option<string>)
    ensures Prefix(s, h) == Prefix(s, g) ==> h == g
  {
    if h.Some? && g.Some? {
      assert Prefix(s, h)[|s| + 1..] == h.value && Prefix(s, g)[|s| + 1..] == g.value;
    }
  }

  // ----------------------------------------------- what matches a probe

  /** A probe without a pattern takes every key of its scheme. One with a pattern takes only keys
      with a host: any for `*`, a proper subdomain for a leading wildcard, and otherwise the one
      it names. */
  lemma HostPatternMeaning(pattern: Option<string>, host: Option<string>)
    ensures HostPatternMatches(pattern, host) <==>
            || pattern.None?
            || (host.Some?
                && (|| pattern.value == "*"
                    || (!("*." <= pattern.value) && pattern.value == host.value)
                    || exists suffix, sub :: pattern.value == "*." + suffix && sub != ""
                                             && host.value == sub + "." + suffix))
  {
    assert "*"[0] == '*' && "*."[1] == '.' && |"*"| == 1;
    if pattern.Some? && host.Some? && "*." <= pattern.value {
      var suffix := pattern.value[2..];
      assert pattern.value == "*." + suffix;
      WildcardMeansProperSubdomain(suffix, host.value);
      forall other | pattern.value == "*." + other ensures other == suffix {
        assert ("*." + other)[2..] == other;
      }
    }
  }

  /** `://` stands here in the key. */
  predicate AuthorityAt(key: string, i: nat) {
    i + 3 <= |key| && key[i] == ':' && key[i + 1] == '/' && key[i + 2] == '/'
  }

  predicate FirstAuthority(key: string, i: nat) {
    AuthorityAt(key, i) && forall j: nat :: j < i ==> !AuthorityAt(key, j)
  }

  /** What follows the first `://`, by position. */
  lemma {:induction false} AuthorityMeaning(key: string)
    ensures AfterAuthorityMark(key).Some? <==> exists i: nat :: FirstAuthority(key, i)
    ensures forall i: nat :: FirstAuthority(key, i) ==>
              i + 3 <= |key| && AfterAuthorityMark(key) == Some(key[i + 3..])
  {
    if |key| >= 3 {
      assert AuthorityAt(key, 0) <==> key[..3] == "://" by {
        assert key[..3] == [key[0], key[1], key[2]];
      }
      if AuthorityAt(key, 0) {
        assert FirstAuthority(key, 0);
      } else {
        AuthorityMeaning(key[1..]);
        forall i: nat ensures AuthorityAt(key, i + 1) <==> AuthorityAt(key[1..], i) {
        }
        MarksShift(key);
      }
    }
  }

  lemma MarksShift(key: string)
    requires |key| >= 3 && !AuthorityAt(key, 0)
    requires forall i: nat :: AuthorityAt(key, i + 1) <==> AuthorityAt(key[1..], i)
    ensures forall i: nat :: FirstAuthority(key, i) ==>
              i > 0 && FirstAuthority(key[1..], i - 1) && key[i + 3..] == key[1..][i + 2..]
    ensures forall i: nat :: FirstAuthority(key[1..], i) ==> FirstAuthority(key, i + 1)
  {
    forall i: nat | FirstAuthority(key, i)
      ensures i > 0 && FirstAuthority(key[1..], i - 1) && key[i + 3..] == key[1..][i + 2..] {
      assert AuthorityAt(key, i - 1 + 1);
      assert forall j: nat :: j < i - 1 && AuthorityAt(key[1..], j) ==> AuthorityAt(key, j + 1);
    }
    forall i: nat | FirstAuthority(key[1..], i) ensures FirstAuthority(key, i + 1) {
      assert AuthorityAt(key, i + 1);
      forall j: nat | j < i + 1 ensures !AuthorityAt(key, j) {
        AtShifted(key, j);
      }
    }
  }

  lemma AtShifted(key: string, j: nat)
    ensures j > 0 ==> (AuthorityAt(key, j) <==> |key| > 0 && AuthorityAt(key[1..], j - 1))
  {
  }

  /** A host ends where one of these begins. */
  predicate Delimits(c: char) {
    c in ['/', '?', '#']
  }

  /** The text from the mark at `i` up to a delimiter or the end. */
  predicate HostAt(key: string, i: nat, host: string) {
    && i + 3 <= |key| && host <= key[i + 3..]
    && (forall k :: 0 <= k < |host| ==> !Delimits(host[k]))
    && (i + 3 + |host| < |key| ==> Delimits(key[i + 3 + |host|]))
  }

  /** The host of a key: what follows its first `://` up to the first of `/`, `?` and `#`, if that
      is anything. */
  lemma HostMeaning(key: string, host: string)
    ensures HostOf(key) == Some(host) <==> host != "" && exists i: nat :: FirstAuthority(key, i) && HostAt(key, i, host)
  {
    hide FirstAuthority, AfterAuthorityMark, HostPrefix, HostAt;
    AuthorityMeaning(key);
    forall i: nat | FirstAuthority(key, i) ensures HostAt(key, i, host) <==> HostPrefix(key[i + 3..]) == host {
      PrefixMeaning(key, i, host);
    }
  }

  lemma PrefixMeaning(key: string, i: nat, host: string)
    requires i + 3 <= |key|
    ensures HostAt(key, i, host) <==> HostPrefix(key[i + 3..]) == host
  {
    hide HostPrefix;
    var rest := key[i + 3..];
    var first := HostPrefix(rest);
    HostPrefixStops(rest);
    assert HostAt(key, i, first);
    forall c ensures Delimits(c) <==> EndsHost(c) {
    }
    if HostAt(key, i, host) {
      SameStop(key, i, host, first);
    }
  }

  lemma SameStop(key: string, i: nat, a: string, b: string)
    requires HostAt(key, i, a) && HostAt(key, i, b)
    ensures a == b
  {
    Spelled(key, i, a);
    Spelled(key, i, b);
  }

  lemma Spelled(key: string, i: nat, host: string)
    requires HostAt(key, i, host)
    ensures i + 3 + |host| <= |key| && host == key[i + 3..i + 3 + |host|]
    ensures forall m :: i + 3 <= m < i + 3 + |host| ==> !Delimits(key[m])
  {
    assert forall m :: i + 3 <= m < i + 3 + |host| ==> key[m] == host[m - i - 3];
  }

  // ---------------------------------------------- why none is selected

  /** The scheme and the host pattern admit the key. */
  predicate Admits(r: Registration, scheme: string, key: string) {
    r.scheme == scheme && HostPatternMatches(r.hostPattern, HostOf(key))
  }

  /** This registration admits the key, and none that does has a higher priority. */
  ghost predicate Highest(regs: Registrations, scheme: string, key: string, id: string) {
    && id in regs && Admits(regs[id], scheme, key)
    && forall other :: other in regs && Admits(regs[other], scheme, key) ==>
         regs[other].priority <= regs[id].priority
  }

  /** Selection fails for one of three reasons: no probe has the scheme; some do, but none admits
      the key; or several share the highest priority, which are then all named. */
  lemma FailureMeaning(regs: Registrations, scheme: string, key: string, outcome: Result<Selected, NoProbe>)
    requires Arbitrates(regs, scheme, key, outcome)
    ensures outcome == Err(UnregisteredScheme(scheme)) <==> forall id :: id in regs ==> regs[id].scheme != scheme
    ensures outcome == Err(NoHostMatch(scheme)) <==>
            && (exists id :: id in regs && regs[id].scheme == scheme)
            && forall id :: id in regs ==> !Admits(regs[id], scheme, key)
    ensures outcome.Err? && outcome.error.PriorityTie? <==>
            exists a, b :: a != b && Highest(regs, scheme, key, a) && Highest(regs, scheme, key, b)
    ensures outcome.Err? && outcome.error.PriorityTie? ==>
              && outcome.error.scheme == scheme
              && (forall id :: id in outcome.error.candidates <==> Highest(regs, scheme, key, id))
              && (forall id :: id in outcome.error.candidates ==>
                    id in regs && regs[id].priority == outcome.error.priority)
  {
    hide HostPatternMatches, HostOf;
    var matching := Matching(regs, scheme, key);
    forall id ensures id in matching <==> id in regs && Admits(regs[id], scheme, key) {
    }
    if matching != {} {
      HighestWin(regs, scheme, key);
    }
  }

  lemma HighestWin(regs: Registrations, scheme: string, key: string)
    requires Matching(regs, scheme, key) != {}
    ensures var matching := Matching(regs, scheme, key);
            var top := TopPriority(regs, matching);
            forall id :: id in Winners(regs, matching, top) <==> Highest(regs, scheme, key, id)
  {
    hide HostPatternMatches, HostOf;
    var matching := Matching(regs, scheme, key);
    var top := TopPriority(regs, matching);
    forall id ensures id in matching <==> id in regs && Admits(regs[id], scheme, key) {
    }
    var best :| best in matching && best in regs && regs[best].priority == top;
  }

  /** How an identity is spelled. */
  lemma IdentitySpellings(scheme: string, host: string, priority: nat)
    ensures Derive(scheme, Some(host), priority) == scheme + "@" + host + "#" + Decimal(priority)
    ensures Derive(scheme, None, priority) == scheme + "#" + Decimal(priority)
    ensures Decimal(10) == "10" && Decimal(207) == "207"
  {
  }
}
