// The policy compiler: render_nftables of controller/vpnhub-controller.py, the meaning of the
// ruleset it renders, and the isolation policy that the ruleset is meant to enforce.

module Nftables {
  import opened Seqs
  import opened Ipv4
  import opened Records
  import opened Payload

  /** The names admin_<id>, sites_<id> and site_<id>. */
  datatype SetName = AdminSet(id: int) | SitesSet(id: int) | SiteSet(id: int)

  datatype SetDecl = SetDecl(name: SetName, elements: seq<Network>)

  datatype Condition = Iif(dev: Device) | Oif(dev: Device) | Saddr(set_: SetName) | Daddr(set_: SetName) | Established

  datatype Verdict = Accept | Drop

  datatype Rule = Rule(conditions: seq<Condition>, verdict: Verdict)

  /** The table inet vpnhub; both chains have policy accept. */
  datatype Ruleset = Ruleset(sets: seq<SetDecl>, input: seq<Rule>, forward: seq<Rule>)

  /** A rendered file: whether it first deletes the table, and what it then declares. */
  datatype NftFile = NftFile(deleteFirst: bool, ruleset: Ruleset)

  datatype Packet = Packet(iif: Device, oif: Device, saddr: int, daddr: int, established: bool)

  // ----- meaning of a ruleset

  /** Declarations of the same name add up, as they do when nft loads the file. */
  predicate InSet(sets: seq<SetDecl>, name: SetName, a: int) {
    exists d :: d in sets && d.name == name && Covers(d.elements, a)
  }

  predicate Holds(sets: seq<SetDecl>, c: Condition, p: Packet) {
    match c
    case Iif(dev) => p.iif == dev
    case Oif(dev) => p.oif == dev
    case Saddr(name) => InSet(sets, name, p.saddr)
    case Daddr(name) => InSet(sets, name, p.daddr)
    case Established => p.established
  }

  predicate AllHold(sets: seq<SetDecl>, cs: seq<Condition>, p: Packet) {
    cs == [] || (Holds(sets, cs[0], p) && AllHold(sets, cs[1..], p))
  }

  /** The verdict of the first matching rule, if any rule matches. */
  function FirstMatch(sets: seq<SetDecl>, rules: seq<Rule>, p: Packet): Option<Verdict> {
    if rules == [] then None
    else if AllHold(sets, rules[0].conditions, p) then Some(rules[0].verdict)
    else FirstMatch(sets, rules[1..], p)
  }

  function Final(v: Option<Verdict>): Verdict {
    if v.Some? then v.value else Accept
  }

  function ForwardVerdict(r: Ruleset, p: Packet): Verdict {
    Final(FirstMatch(r.sets, r.forward, p))
  }

  function InputVerdict(r: Ruleset, p: Packet): Verdict {
    Final(FirstMatch(r.sets, r.input, p))
  }

  // ----- the compiler

  function Enabled(s: State): (ts: State)
    ensures forall x :: x in ts <==> x in s && x.enabled
  {
    Filter((x: Instance) => x.enabled, s)
  }

  function AllRanges(sites: seq<Site>): (r: seq<Network>)
    ensures forall p :: p in r <==> exists s :: s in sites && p in s.ranges
  {
    if sites == [] then []
    else
      assert sites == sites[..|sites| - 1] + [sites[|sites| - 1]];
      AllRanges(sites[..|sites| - 1]) + sites[|sites| - 1].ranges
  }

  function SiteDecl(s: Site): SetDecl {
    SetDecl(SiteSet(s.id), Dedup(s.ranges))
  }

  function SiteDecls(sites: seq<Site>): (r: seq<SetDecl>)
    ensures forall d :: d in r <==> exists s :: s in sites && d == SiteDecl(s)
  {
    if sites == [] then []
    else
      assert sites == sites[..|sites| - 1] + [sites[|sites| - 1]];
      SiteDecls(sites[..|sites| - 1]) + [SiteDecl(sites[|sites| - 1])]
  }

  function TrunkDecls(x: Instance): seq<SetDecl> {
    [SetDecl(AdminSet(x.id), x.adminAddresses), SetDecl(SitesSet(x.id), Dedup(AllRanges(x.sites)))]
    + SiteDecls(x.sites)
  }

  function Decls(ts: State): (r: seq<SetDecl>)
    ensures forall d :: d in r <==> exists x :: x in ts && d in TrunkDecls(x)
  {
    if ts == [] then []
    else
      assert ts == ts[..|ts| - 1] + [ts[|ts| - 1]];
      Decls(ts[..|ts| - 1]) + TrunkDecls(ts[|ts| - 1])
  }

  function TrunkInput(x: Instance): seq<Rule> {
    [Rule([Iif(x.Dev()), Saddr(AdminSet(x.id))], Accept), Rule([Iif(x.Dev())], Drop)]
  }

  function InputChain(ts: State): seq<Rule> {
    if ts == [] then [] else InputChain(ts[..|ts| - 1]) + TrunkInput(ts[|ts| - 1])
  }

  function SiteRule(dev: Device, s: Site): Rule {
    Rule([Iif(dev), Oif(dev), Saddr(SiteSet(s.id)), Daddr(SiteSet(s.id))], Accept)
  }

  function SiteRules(dev: Device, sites: seq<Site>): seq<Rule> {
    if sites == [] then []
    else SiteRules(dev, sites[..|sites| - 1]) + [SiteRule(dev, sites[|sites| - 1])]
  }

  function AdminRules(x: Instance): seq<Rule> {
    [Rule([Iif(x.Dev()), Oif(x.Dev()), Saddr(AdminSet(x.id)), Daddr(SitesSet(x.id))], Accept),
     Rule([Iif(x.Dev()), Oif(x.Dev()), Saddr(SitesSet(x.id)), Daddr(AdminSet(x.id)), Established], Accept)]
  }

  function DropRules(dev: Device): seq<Rule> {
    [Rule([Iif(dev)], Drop), Rule([Oif(dev)], Drop)]
  }

  function TrunkForward(x: Instance): seq<Rule> {
    AdminRules(x) + SiteRules(x.Dev(), x.sites) + DropRules(x.Dev())
  }

  function ForwardChain(ts: State): seq<Rule> {
    if ts == [] then [] else ForwardChain(ts[..|ts| - 1]) + TrunkForward(ts[|ts| - 1])
  }

  function Compile(s: State): Ruleset {
    Ruleset(Decls(Enabled(s)), InputChain(Enabled(s)), ForwardChain(Enabled(s)))
  }

  /** render_nftables: sets first, then the two chains, trunk after trunk. */
  method RenderNftables(s: State, tableExists: bool) returns (file: NftFile)
    ensures file == NftFile(tableExists, Compile(s))
  {
    var enabled := Enabled(s);
    var sets := RenderSets(enabled);
    var input: seq<Rule> := [];
    for i := 0 to |enabled|
      invariant input == InputChain(enabled[..i])
    {
      assert enabled[..i + 1][..i] == enabled[..i];
      input := input + [Rule([Iif(enabled[i].Dev()), Saddr(AdminSet(enabled[i].id))], Accept)];
      input := input + [Rule([Iif(enabled[i].Dev())], Drop)];
    }
    var forward := RenderForward(enabled);
    assert enabled[..|enabled|] == enabled;
    file := NftFile(tableExists, Ruleset(sets, input, forward));
  }

  method RenderSets(enabled: State) returns (sets: seq<SetDecl>)
    ensures sets == Decls(enabled)
  {
    sets := [];
    for i := 0 to |enabled|
      invariant sets == Decls(enabled[..i])
    {
      var x := enabled[i];
      ghost var before := sets;
      sets := sets + [SetDecl(AdminSet(x.id), x.adminAddresses),
                      SetDecl(SitesSet(x.id), Dedup(AllRanges(x.sites)))];
      ghost var start := sets;
      for k := 0 to |x.sites|
        invariant sets == start + SiteDecls(x.sites[..k])
      {
        assert x.sites[..k + 1][..k] == x.sites[..k];
        sets := sets + [SetDecl(SiteSet(x.sites[k].id), Dedup(x.sites[k].ranges))];
      }
      assert x.sites[..|x.sites|] == x.sites;
      assert sets == before + TrunkDecls(x);
      assert enabled[..i + 1][..i] == enabled[..i];
    }
    assert enabled[..|enabled|] == enabled;
  }

  method RenderForward(enabled: State) returns (forward: seq<Rule>)
    ensures forward == ForwardChain(enabled)
  {
    forward := [];
    for i := 0 to |enabled|
      invariant forward == ForwardChain(enabled[..i])
    {
      var x := enabled[i];
      ghost var before := forward;
      forward := forward + AdminRules(x);
      for k := 0 to |x.sites|
        invariant forward == before + (AdminRules(x) + SiteRules(x.Dev(), x.sites[..k]))
      {
        assert x.sites[..k + 1][..k] == x.sites[..k];
        forward := forward + [SiteRule(x.Dev(), x.sites[k])];
      }
      assert x.sites[..|x.sites|] == x.sites;
      forward := forward + DropRules(x.Dev());
      assert forward == before + TrunkForward(x);
      assert enabled[..i + 1][..i] == enabled[..i];
    }
    assert enabled[..|enabled|] == enabled;
  }

  // ----- the isolation policy

  predicate IsAdmin(x: Instance, a: int) {
    Covers(x.adminAddresses, a)
  }

  predicate InSomeSite(x: Instance, a: int) {
    exists s :: s in x.sites && Covers(s.ranges, a)
  }

  predicate SameSite(x: Instance, a: int, b: int) {
    exists s :: s in x.sites && Covers(s.ranges, a) && Covers(s.ranges, b)
  }

  /** What may pass from a trunk to itself: Admin to Sites, Sites to Admin on established
      traffic, and each Site to itself. */
  predicate Permitted(x: Instance, p: Packet) {
    && p.iif == x.Dev() && p.oif == x.Dev()
    && (|| (IsAdmin(x, p.saddr) && InSomeSite(x, p.daddr))
        || (InSomeSite(x, p.saddr) && IsAdmin(x, p.daddr) && p.established)
        || SameSite(x, p.saddr, p.daddr))
  }

  predicate Touches(x: Instance, p: Packet) {
    p.iif == x.Dev() || p.oif == x.Dev()
  }

  predicate TouchesAny(ts: State, p: Packet) {
    exists x :: x in ts && Touches(x, p)
  }

  predicate PermittedAny(ts: State, p: Packet) {
    exists x :: x in ts && Permitted(x, p)
  }

  /** Everything else that touches an enabled trunk is dropped; the rest is not our concern. */
  function ForwardPolicy(s: State, p: Packet): Verdict {
    if TouchesAny(Enabled(s), p) && !PermittedAny(Enabled(s), p) then Drop else Accept
  }

  /** Only Admin Peers of an enabled trunk reach the hub itself through it. */
  function InputPolicy(s: State, p: Packet): Verdict {
    if (exists x :: x in Enabled(s) && p.iif == x.Dev() && !IsAdmin(x, p.saddr)) then Drop else Accept
  }

  // ----- correctness of the compiler

  /** Primary keys: an id belongs to one trunk, and a Site id to one Site of one trunk. */
  predicate DistinctIds(s: State) {
    && (forall x, y :: x in s && y in s && x.id == y.id ==> x == y)
    && (forall x, y, a, b :: x in s && y in s && a in x.sites && b in y.sites && a.id == b.id ==> a == b)
  }

  /** The names a trunk's rules use denote that trunk's own addresses. */
  ghost predicate Resolves(sets: seq<SetDecl>, x: Instance) {
    && (forall a :: InSet(sets, AdminSet(x.id), a) <==> IsAdmin(x, a))
    && (forall a :: InSet(sets, SitesSet(x.id), a) <==> InSomeSite(x, a))
    && (forall s, a :: s in x.sites ==> (InSet(sets, SiteSet(s.id), a) <==> Covers(s.ranges, a)))
  }

  function AdminDecl(x: Instance): SetDecl {
    SetDecl(AdminSet(x.id), x.adminAddresses)
  }

  function SitesDecl(x: Instance): SetDecl {
    SetDecl(SitesSet(x.id), Dedup(AllRanges(x.sites)))
  }

  lemma DeclsOfTrunk(x: Instance, d: SetDecl)
    ensures d in TrunkDecls(x) <==> d == AdminDecl(x) || d == SitesDecl(x) || d in SiteDecls(x.sites)
  {
  }

  lemma DeclUnique(ts: State, d: SetDecl, e: SetDecl)
    requires DistinctIds(ts) && d in Decls(ts) && e in Decls(ts) && d.name == e.name
    ensures d == e
  {
    var x :| x in ts && d in TrunkDecls(x);
    var y :| y in ts && e in TrunkDecls(y);
    DeclsOfTrunk(x, d);
    DeclsOfTrunk(y, e);
    if d.name.SiteSet? {
      var s :| s in x.sites && d == SiteDecl(s);
      var t :| t in y.sites && e == SiteDecl(t);
      assert s == t;
    } else {
      assert x == y;
    }
  }

  /** With distinct ids a set name denotes the elements of its one declaration. */
  lemma DeclMeaning(ts: State, d: SetDecl, a: int)
    requires DistinctIds(ts) && d in Decls(ts)
    ensures InSet(Decls(ts), d.name, a) <==> Covers(d.elements, a)
  {
    if InSet(Decls(ts), d.name, a) {
      var e :| e in Decls(ts) && e.name == d.name && Covers(e.elements, a);
      DeclUnique(ts, d, e);
    }
  }

  lemma CoversDedup(s: seq<Network>, a: int)
    ensures Covers(Dedup(s), a) <==> Covers(s, a)
  {
  }

  lemma CoversAllRanges(x: Instance, a: int)
    ensures Covers(AllRanges(x.sites), a) <==> InSomeSite(x, a)
  {
    if Covers(AllRanges(x.sites), a) {
      var p :| p in AllRanges(x.sites) && p.Contains(a);
      var s :| s in x.sites && p in s.ranges;
    }
    if InSomeSite(x, a) {
      var s :| s in x.sites && Covers(s.ranges, a);
      var p :| p in s.ranges && p.Contains(a);
      assert p in AllRanges(x.sites);
    }
  }

  lemma AllResolve(ts: State, x: Instance)
    requires DistinctIds(ts) && x in ts
    ensures Resolves(Decls(ts), x)
  {
    forall a: int ensures InSet(Decls(ts), AdminSet(x.id), a) <==> IsAdmin(x, a) {
      DeclsOfTrunk(x, AdminDecl(x));
      DeclMeaning(ts, AdminDecl(x), a);
    }
    forall a: int ensures InSet(Decls(ts), SitesSet(x.id), a) <==> InSomeSite(x, a) {
      DeclsOfTrunk(x, SitesDecl(x));
      DeclMeaning(ts, SitesDecl(x), a);
      CoversDedup(AllRanges(x.sites), a);
      CoversAllRanges(x, a);
    }
    forall s, a: int | s in x.sites ensures InSet(Decls(ts), SiteSet(s.id), a) <==> Covers(s.ranges, a) {
      DeclsOfTrunk(x, SiteDecl(s));
      DeclMeaning(ts, SiteDecl(s), a);
      CoversDedup(s.ranges, a);
    }
  }

  lemma {:induction false} FirstMatchConcat(sets: seq<SetDecl>, a: seq<Rule>, b: seq<Rule>, p: Packet)
    ensures FirstMatch(sets, a + b, p) ==
            if FirstMatch(sets, a, p).Some? then FirstMatch(sets, a, p) else FirstMatch(sets, b, p)
  {
    if a == [] {
      assert a + b == b;
    } else {
      assert (a + b)[0] == a[0] && (a + b)[1..] == a[1..] + b;
      FirstMatchConcat(sets, a[1..], b, p);
    }
  }

  lemma FirstMatchOne(sets: seq<SetDecl>, r: Rule, p: Packet)
    ensures FirstMatch(sets, [r], p) == if AllHold(sets, r.conditions, p) then Some(r.verdict) else None
  {
  }

  lemma HoldAll2(sets: seq<SetDecl>, a: Condition, b: Condition, rest: seq<Condition>, p: Packet)
    ensures AllHold(sets, [a, b] + rest, p) <==> Holds(sets, a, p) && Holds(sets, b, p) && AllHold(sets, rest, p)
  {
    assert ([a, b] + rest)[1..] == [b] + rest;
    assert ([b] + rest)[1..] == rest;
  }

  lemma HoldAll4(sets: seq<SetDecl>, a: Condition, b: Condition, c: Condition, d: Condition,
                 rest: seq<Condition>, p: Packet)
    ensures AllHold(sets, [a, b, c, d] + rest, p) <==>
            && Holds(sets, a, p) && Holds(sets, b, p)
            && Holds(sets, c, p) && Holds(sets, d, p) && AllHold(sets, rest, p)
  {
    HoldAll2(sets, c, d, rest, p);
    HoldAll2(sets, a, b, [c, d] + rest, p);
    assert [a, b, c, d] + rest == [a, b] + ([c, d] + rest);
  }

  lemma {:induction false} SiteRulesMeaning(sets: seq<SetDecl>, x: Instance, sites: seq<Site>, p: Packet)
    requires Resolves(sets, x) && forall s :: s in sites ==> s in x.sites
    ensures FirstMatch(sets, SiteRules(x.Dev(), sites), p) ==
            if p.iif == x.Dev() && p.oif == x.Dev()
               && (exists s :: s in sites && Covers(s.ranges, p.saddr) && Covers(s.ranges, p.daddr))
            then Some(Accept) else None
  {
    if sites == [] {
    } else {
      var front, s := sites[..|sites| - 1], sites[|sites| - 1];
      assert sites == front + [s];
      SiteRulesMeaning(sets, x, front, p);
      FirstMatchConcat(sets, SiteRules(x.Dev(), front), [SiteRule(x.Dev(), s)], p);
      FirstMatchOne(sets, SiteRule(x.Dev(), s), p);
      var name := SiteSet(s.id);
      HoldAll4(sets, Iif(x.Dev()), Oif(x.Dev()), Saddr(name), Daddr(name), [], p);
      assert SiteRule(x.Dev(), s).conditions == [Iif(x.Dev()), Oif(x.Dev()), Saddr(name), Daddr(name)] + [];
    }
  }

  lemma AdminRulesMeaning(sets: seq<SetDecl>, x: Instance, p: Packet)
    requires Resolves(sets, x)
    ensures FirstMatch(sets, AdminRules(x), p) ==
            if p.iif == x.Dev() && p.oif == x.Dev()
               && (|| (IsAdmin(x, p.saddr) && InSomeSite(x, p.daddr))
                   || (InSomeSite(x, p.saddr) && IsAdmin(x, p.daddr) && p.established))
            then Some(Accept) else None
  {
    var r := AdminRules(x);
    assert r == [r[0]] + [r[1]];
    FirstMatchConcat(sets, [r[0]], [r[1]], p);
    FirstMatchOne(sets, r[0], p);
    FirstMatchOne(sets, r[1], p);
    var dev, admin, sites := x.Dev(), AdminSet(x.id), SitesSet(x.id);
    HoldAll4(sets, Iif(dev), Oif(dev), Saddr(admin), Daddr(sites), [], p);
    assert r[0].conditions == [Iif(dev), Oif(dev), Saddr(admin), Daddr(sites)] + [];
    HoldAll4(sets, Iif(dev), Oif(dev), Saddr(sites), Daddr(admin), [Established], p);
    assert r[1].conditions == [Iif(dev), Oif(dev), Saddr(sites), Daddr(admin)] + [Established];
    assert AllHold(sets, [Established], p) <==> p.established;
  }

  lemma DropRulesMeaning(sets: seq<SetDecl>, dev: Device, p: Packet)
    ensures FirstMatch(sets, DropRules(dev), p) ==
            if p.iif == dev || p.oif == dev then Some(Drop) else None
  {
    var r := DropRules(dev);
    assert r == [r[0]] + [r[1]];
    FirstMatchConcat(sets, [r[0]], [r[1]], p);
    FirstMatchOne(sets, r[0], p);
    FirstMatchOne(sets, r[1], p);
  }

  lemma TrunkMeaning(sets: seq<SetDecl>, x: Instance, p: Packet)
    requires Resolves(sets, x)
    ensures FirstMatch(sets, TrunkForward(x), p) ==
            if Permitted(x, p) then Some(Accept) else if Touches(x, p) then Some(Drop) else None
  {
    AdminRulesMeaning(sets, x, p);
    SiteRulesMeaning(sets, x, x.sites, p);
    DropRulesMeaning(sets, x.Dev(), p);
    FirstMatchConcat(sets, AdminRules(x), SiteRules(x.Dev(), x.sites), p);
    FirstMatchConcat(sets, AdminRules(x) + SiteRules(x.Dev(), x.sites), DropRules(x.Dev()), p);
  }

  function Decision(ts: State, p: Packet): Option<Verdict> {
    if !TouchesAny(ts, p) then None
    else if PermittedAny(ts, p) then Some(Accept)
    else Some(Drop)
  }

  lemma DecisionStep(front: State, x: Instance, p: Packet)
    requires forall y :: y in front ==> y.Dev() != x.Dev()
    ensures Decision(front + [x], p) ==
            if Decision(front, p).Some? then Decision(front, p)
            else if Permitted(x, p) then Some(Accept) else if Touches(x, p) then Some(Drop) else None
  {
    var ts := front + [x];
    assert x in ts && forall y :: y in ts <==> y in front || y == x;
    if PermittedAny(front, p) {
      var y :| y in front && Permitted(y, p);
      assert y in ts;
    }
    if TouchesAny(front, p) {
      var y :| y in front && Touches(y, p);
      assert y in ts;
    }
  }

  /** However many trunks precede the deciding block, the chain decides as the policy does. */
  lemma {:induction false} ChainMeaning(sets: seq<SetDecl>, ts: State, p: Packet)
    requires DistinctDevices(ts) && forall x :: x in ts ==> Resolves(sets, x)
    ensures FirstMatch(sets, ForwardChain(ts), p) == Decision(ts, p)
  {
    if ts == [] {
    } else {
      var front, x := ts[..|ts| - 1], ts[|ts| - 1];
      assert ts == front + [x];
      ChainMeaning(sets, front, p);
      TrunkMeaning(sets, x, p);
      FirstMatchConcat(sets, ForwardChain(front), TrunkForward(x), p);
      LastDevice(ts);
      DecisionStep(front, x, p);
    }
  }

  lemma TrunkInputMeaning(sets: seq<SetDecl>, x: Instance, p: Packet)
    requires Resolves(sets, x)
    ensures FirstMatch(sets, TrunkInput(x), p) ==
            if p.iif != x.Dev() then None else Some(if IsAdmin(x, p.saddr) then Accept else Drop)
  {
    var r := TrunkInput(x);
    assert r == [r[0]] + [r[1]];
    FirstMatchConcat(sets, [r[0]], [r[1]], p);
    FirstMatchOne(sets, r[0], p);
    FirstMatchOne(sets, r[1], p);
    HoldAll2(sets, Iif(x.Dev()), Saddr(AdminSet(x.id)), [], p);
    assert r[0].conditions == [Iif(x.Dev()), Saddr(AdminSet(x.id))] + [];
  }

  predicate EntersAt(ts: State, p: Packet) {
    exists x :: x in ts && p.iif == x.Dev()
  }

  predicate AdminEnters(ts: State, p: Packet) {
    exists x :: x in ts && p.iif == x.Dev() && IsAdmin(x, p.saddr)
  }

  lemma {:induction false} InputMeaning(sets: seq<SetDecl>, ts: State, p: Packet)
    requires DistinctDevices(ts) && forall x :: x in ts ==> Resolves(sets, x)
    ensures FirstMatch(sets, InputChain(ts), p) ==
            if AdminEnters(ts, p) then Some(Accept) else if EntersAt(ts, p) then Some(Drop) else None
  {
    if ts == [] {
    } else {
      var front, x := ts[..|ts| - 1], ts[|ts| - 1];
      assert ts == front + [x];
      InputMeaning(sets, front, p);
      TrunkInputMeaning(sets, x, p);
      FirstMatchConcat(sets, InputChain(front), TrunkInput(x), p);
      LastDevice(ts);
    }
  }

  lemma LastDevice(ts: State)
    requires DistinctDevices(ts) && ts != []
    ensures forall y :: y in ts[..|ts| - 1] ==> y.Dev() != ts[|ts| - 1].Dev()
  {
    forall y | y in ts[..|ts| - 1] ensures y.Dev() != ts[|ts| - 1].Dev() {
      var i :| 0 <= i < |ts| - 1 && ts[i] == y;
    }
  }

  lemma {:induction false} EnabledApart(s: State)
    requires DistinctDevices(s)
    ensures DistinctDevices(Enabled(s))
  {
    if s == [] {
    } else {
      var front, x := s[..|s| - 1], s[|s| - 1];
      assert s == front + [x];
      EnabledApart(front);
      LastDevice(s);
      EnabledStep(s);
    }
  }

  lemma EnabledStep(s: State)
    requires s != []
    ensures Enabled(s) == Enabled(s[..|s| - 1]) + (if s[|s| - 1].enabled then [s[|s| - 1]] else [])
  {
  }

  lemma EnabledResolve(s: State)
    requires DistinctDevices(s) && DistinctIds(s)
    ensures DistinctDevices(Enabled(s)) && forall x :: x in Enabled(s) ==> Resolves(Decls(Enabled(s)), x)
  {
    EnabledApart(s);
    assert DistinctIds(Enabled(s));
    forall x | x in Enabled(s) ensures Resolves(Decls(Enabled(s)), x) {
      AllResolve(Enabled(s), x);
    }
  }

  /** The rendered forward chain decides every packet as the isolation policy does. */
  lemma ForwardCorrect(s: State, p: Packet)
    requires DistinctDevices(s) && DistinctIds(s)
    ensures ForwardVerdict(Compile(s), p) == ForwardPolicy(s, p)
  {
    EnabledResolve(s);
    ChainMeaning(Decls(Enabled(s)), Enabled(s), p);
  }

  /** The rendered input chain lets only Admin Peers reach the hub through a trunk. */
  lemma InputCorrect(s: State, p: Packet)
    requires DistinctDevices(s) && DistinctIds(s)
    ensures InputVerdict(Compile(s), p) == InputPolicy(s, p)
  {
    EnabledResolve(s);
    var ts := Enabled(s);
    InputMeaning(Decls(ts), ts, p);
    if AdminEnters(ts, p) {
      var x :| x in ts && p.iif == x.Dev() && IsAdmin(x, p.saddr);
      forall y | y in ts && p.iif == y.Dev() ensures y == x {
        DeviceUnique(ts, x, y);
      }
    }
  }

  function SharedIdTrunk(record: Record): Instance {
    Instance(1, true, record, [], [Site(7, [Host(1)]), Site(7, [Host(2)])], [], [])
  }

  /** Distinct Site ids are needed: two Sites of one trunk with the same id reach each other. */
  lemma SharedSiteIdLeaks(record: Record)
    ensures var s := [SharedIdTrunk(record)];
            var p := Packet(record.interface, record.interface, 1, 2, false);
            DistinctDevices(s) && ForwardPolicy(s, p) == Drop && ForwardVerdict(Compile(s), p) == Accept
  {
    var x := SharedIdTrunk(record);
    var p := Packet(record.interface, record.interface, 1, 2, false);
    SingleTrunkPolicy(x, p);
    SingleTrunkChain(x, p);
    assert !SameSite(x, 1, 2);
    assert !IsAdmin(x, 1) && !IsAdmin(x, 2);
    SharedSiteSets(x);
    SharedSiteFirstMatch(Decls([x]), x, x.sites[0], x.sites[1], p);
  }

  lemma SingleEnabled(x: Instance)
    requires x.enabled
    ensures Enabled([x]) == [x]
  {
    EnabledStep([x]);
    assert [x][..0] == [];
  }

  lemma SingleTrunkPolicy(x: Instance, p: Packet)
    requires x.enabled
    ensures ForwardPolicy([x], p) == if Touches(x, p) && !Permitted(x, p) then Drop else Accept
  {
    SingleEnabled(x);
    assert x in [x] && forall y :: y in [x] ==> y == x;
  }

  lemma SingleTrunkChain(x: Instance, p: Packet)
    requires x.enabled
    ensures ForwardVerdict(Compile([x]), p) == Final(FirstMatch(Decls([x]), TrunkForward(x), p))
  {
    SingleEnabled(x);
    assert [x][..0] == [];
    assert ForwardChain([x]) == TrunkForward(x);
  }

  lemma SharedSiteSets(x: Instance)
    requires x.sites == [Site(7, [Host(1)]), Site(7, [Host(2)])]
    ensures InSet(Decls([x]), SiteSet(7), 1) && InSet(Decls([x]), SiteSet(7), 2)
  {
    var a, b := x.sites[0], x.sites[1];
    assert [x][..0] == [] && Decls([x]) == TrunkDecls(x);
    DeclsOfTrunk(x, SiteDecl(a));
    DeclsOfTrunk(x, SiteDecl(b));
    assert a in x.sites && b in x.sites;
    CoversDedup(a.ranges, 1);
    CoversDedup(b.ranges, 2);
    assert Host(1) in a.ranges && Host(2) in b.ranges;
  }

  lemma SharedSiteFirstMatch(sets: seq<SetDecl>, x: Instance, a: Site, b: Site, p: Packet)
    requires x.sites == [a, b] && a.id == b.id && p.iif == p.oif == x.Dev()
    requires InSet(sets, SiteSet(a.id), p.saddr) && InSet(sets, SiteSet(a.id), p.daddr)
    ensures FirstMatch(sets, TrunkForward(x), p) == Some(Accept)
  {
    var r := AdminRules(x);
    FirstMatchConcat(sets, r + SiteRules(x.Dev(), x.sites), DropRules(x.Dev()), p);
    FirstMatchConcat(sets, r, SiteRules(x.Dev(), x.sites), p);
    assert r == [r[0]] + [r[1]];
    FirstMatchConcat(sets, [r[0]], [r[1]], p);
    FirstMatchOne(sets, r[0], p);
    FirstMatchOne(sets, r[1], p);
    assert x.sites[..1] == [a] && [a][..0] == [];
    assert SiteRules(x.Dev(), [a]) == [SiteRule(x.Dev(), a)];
    assert SiteRules(x.Dev(), x.sites) == [SiteRule(x.Dev(), a)] + [SiteRule(x.Dev(), b)];
    FirstMatchConcat(sets, [SiteRule(x.Dev(), a)], [SiteRule(x.Dev(), b)], p);
    FirstMatchOne(sets, SiteRule(x.Dev(), a), p);
    var name := SiteSet(a.id);
    HoldAll4(sets, Iif(x.Dev()), Oif(x.Dev()), Saddr(name), Daddr(name), [], p);
    assert SiteRule(x.Dev(), a).conditions == [Iif(x.Dev()), Oif(x.Dev()), Saddr(name), Daddr(name)] + [];
  }
}
