/** Names derived from the configured base DN: the domain suffix
    (`_get_domain_suffix`), where new objects are placed, the zone containers
    probed by `get_dns_zones`, and the search filters of `find_dn_by_name`. */
module Naming {
  import opened Wrappers
  import opened Strings
  import opened Identity

  // ---------------------------------------------------------------------------
  // Domain suffix

  /** Whether an RDN, lower-cased and stripped, is a domain component. */
  predicate IsDcRdn(p: string) {
    StartsWith(Strip(Lower(p)), "dc=")
  }

  lemma DcRdnHasEquals(p: string)
    requires IsDcRdn(p)
    ensures '=' in p && |Split(p, '=')| >= 2
  {
    EqualsSurvivesStrip(p);
    EqualsSurvivesLower(p);
    SplitAtSeparator(p, '=');
  }

  lemma EqualsSurvivesStrip(p: string)
    requires IsDcRdn(p)
    ensures '=' in Lower(p)
  {
    var t := Strip(Lower(p));
    assert t[2] == '=';
    StripKeeps(Lower(p), '=');
  }

  lemma EqualsSurvivesLower(p: string)
    requires '=' in Lower(p)
    ensures '=' in p
  {
    var j :| 0 <= j < |p| && Lower(p)[j] == '=';
    assert p[j] in p;
  }

  /** `[p.split('=')[1] for p in parts if p.lower().strip().startswith('dc=')]` */
  function DcValues(parts: seq<string>): (values: seq<string>)
    ensures |values| <= |parts|
  {
    if parts == [] then []
    else if IsDcRdn(parts[0]) then
      DcRdnHasEquals(parts[0]);
      [Split(parts[0], '=')[1]] + DcValues(parts[1..])
    else DcValues(parts[1..])
  }

  /** `_get_domain_suffix(dn)`: the configured domain if set, otherwise the
      DC values of the DN joined with dots, otherwise "local". */
  function DomainSuffix(domain: Option<string>, dn: string): (suffix: string)
    ensures Truthy(domain) ==> suffix == domain.value
    ensures !Truthy(domain) && DcValues(Split(dn, ',')) == [] ==> suffix == "local"
  {
    if Truthy(domain) then domain.value
    else
      var dcs := DcValues(Split(dn, ','));
      if dcs == [] then "local" else Join(dcs, ".")
  }

  /** The values of two runs of parts are those of each run, in order. */
  lemma {:induction false} DcValuesAppend(a: seq<string>, b: seq<string>)
    ensures DcValues(a + b) == DcValues(a) + DcValues(b)
  {
    if a == [] {
      assert a + b == b;
    } else {
      var ab := a + b;
      assert ab[0] == a[0] && ab[1..] == a[1..] + b;
      DcValuesAppend(a[1..], b);
      if IsDcRdn(a[0]) {
        DcRdnHasEquals(a[0]);
        var v := Split(a[0], '=')[1];
        assert DcValues(ab) == [v] + DcValues(a[1..] + b);
        assert DcValues(a) == [v] + DcValues(a[1..]);
      } else {
        assert DcValues(ab) == DcValues(a[1..] + b);
        assert DcValues(a) == DcValues(a[1..]);
      }
    }
  }

  /** A part that is not a domain component contributes nothing. */
  lemma DcValuesSkip(p: string, ps: seq<string>)
    requires !IsDcRdn(p)
    ensures DcValues([p] + ps) == DcValues(ps)
  {
    assert ([p] + ps)[1..] == ps;
  }

  /** The value one part contributes: the text after its first `=` when it is
      a domain component, nothing otherwise. */
  lemma DcValuesOne(p: string)
    ensures IsDcRdn(p) ==> |Split(p, '=')| >= 2 && DcValues([p]) == [Split(p, '=')[1]]
    ensures !IsDcRdn(p) ==> DcValues([p]) == []
  {
    assert [p][1..] == [];
    if IsDcRdn(p) {
      DcRdnHasEquals(p);
    }
  }

  /** Parts none of which is a domain component have no values. */
  lemma {:induction false} DcValuesNone(parts: seq<string>)
    requires forall i :: 0 <= i < |parts| ==> !IsDcRdn(parts[i])
    ensures DcValues(parts) == []
  {
    if parts != [] {
      DcValuesNone(parts[1..]);
    }
  }

  /** The label list `[a, b, c]` written as the DN `DC=a,DC=b,DC=c`. */
  function DcRdns(labels: seq<string>): (rdns: seq<string>)
    ensures |rdns| == |labels|
    ensures forall i :: 0 <= i < |labels| ==> rdns[i] == "DC=" + labels[i]
  {
    if labels == [] then [] else ["DC=" + labels[0]] + DcRdns(labels[1..])
  }

  /** A label usable inside a DC component: no `,` or `=`, and no trailing blank. */
  predicate PlainLabel(l: string) {
    ',' !in l && '=' !in l && (l == [] || !IsSpace(l[|l| - 1]))
  }

  lemma LowerDc(l: string)
    ensures Lower("DC=" + l) == "dc=" + Lower(l)
  {
  }

  lemma DcRdnOfLabel(l: string)
    requires PlainLabel(l)
    ensures IsDcRdn("DC=" + l)
  {
    var r := "DC=" + l;
    LowerDc(l);
    var lr := Lower(r);
    assert lr[0] == 'd';
    assert lr[|lr| - 1] == if l == [] then '=' else LowerChar(l[|l| - 1]);
    StripNoop(lr);
  }

  lemma SplitDcRdn(l: string)
    requires '=' !in l
    ensures Split("DC=" + l, '=') == ["DC", l]
  {
    assert "DC=" + l == "DC" + ("=" + l);
    SplitAfterSep(l, '=');
    assert ("=" + l) == ['='] + l;
    SplitFree(l, '=');
    SplitPrefix("DC", "=" + l, '=');
    var t := Split("=" + l, '=');
    assert t == [[], l];
    assert "DC" + t[0] == "DC";
  }

  /** A blank in front of a part does not change whether it is a domain
      component: the part is stripped before the test. */
  lemma BlankBeforeRdn(t: string)
    ensures IsDcRdn([' '] + t) == IsDcRdn(t)
  {
    var r := [' '] + t;
    assert Lower(r) == [' '] + Lower(t);
    assert TrimStart(Lower(r)) == TrimStart(Lower(t)) by {
      assert Lower(r)[1..] == Lower(t);
    }
  }

  /** A domain component written after a blank, as in `DC=a, DC=b`, is still
      recognised, and its value is the label. */
  lemma SpacedDcRdn(l: string)
    requires PlainLabel(l)
    ensures IsDcRdn(" DC=" + l) && DcValues([" DC=" + l]) == [l]
  {
    var r := " DC=" + l;
    DcRdnOfLabel(l);
    assert r == [' '] + ("DC=" + l);
    BlankBeforeRdn("DC=" + l);
    assert r == " DC" + "=" + l;
    SplitAround(" DC", l, '=');
    DcValuesOne(r);
  }

  lemma {:induction false} DcValuesOfRdns(labels: seq<string>)
    requires forall i :: 0 <= i < |labels| ==> PlainLabel(labels[i])
    ensures DcValues(DcRdns(labels)) == labels
  {
    if labels != [] {
      var rdns := DcRdns(labels);
      DcRdnOfLabel(labels[0]);
      SplitDcRdn(labels[0]);
      DcValuesOfRdns(labels[1..]);
      assert rdns[1..] == DcRdns(labels[1..]);
      assert DcValues(rdns) == [Split(rdns[0], '=')[1]] + DcValues(rdns[1..]);
      assert labels == [labels[0]] + labels[1..];
    }
  }

  /** With no domain configured, the suffix of a pure `DC=a,DC=b,...` base DN
      is `a.b...`: deriving the suffix inverts writing the domain as a DN. */
  lemma DomainSuffixOfDcBase(domain: Option<string>, labels: seq<string>)
    requires !Truthy(domain)
    requires |labels| >= 1
    requires forall i :: 0 <= i < |labels| ==> PlainLabel(labels[i])
    ensures DomainSuffix(domain, Join(DcRdns(labels), ",")) == Join(labels, ".")
  {
    var rdns := DcRdns(labels);
    forall i | 0 <= i < |rdns| ensures ',' !in rdns[i] {
      assert rdns[i] == "DC=" + labels[i];
    }
    SplitJoin(rdns, ',');
    DcValuesOfRdns(labels);
  }

  /** A part whose first character is neither blank nor a `d` of either case
      is not a domain component. */
  lemma NotDcRdn(p: string)
    requires p != [] && !IsSpace(p[0]) && LowerChar(p[0]) != 'd'
    ensures !IsDcRdn(p)
  {
    var l := Lower(p);
    assert l[0] == LowerChar(p[0]) && !IsSpace(l[0]);
    StripShape(l);
    var r := Strip(l);
    var a, b :| TrimmedSlice(l, r, a, b);
    assert a == 0;
    assert b > 0;
    assert r[0] == l[0];
  }

  /** With no domain configured, a base DN of organisational parts in front of
      `DC=a,DC=b,...` (such as `OU=sales,DC=corp,DC=example`) gives the suffix
      `a.b...`: the parts that are not domain components are skipped. */
  lemma DomainSuffixOfOuBase(domain: Option<string>, ous: seq<string>, labels: seq<string>)
    requires !Truthy(domain)
    requires |labels| >= 1
    requires forall i :: 0 <= i < |labels| ==> PlainLabel(labels[i])
    requires forall i :: 0 <= i < |ous| ==> ',' !in ous[i] && !IsDcRdn(ous[i])
    ensures DomainSuffix(domain, Join(ous + DcRdns(labels), ",")) == Join(labels, ".")
  {
    var rdns := DcRdns(labels);
    var parts := ous + rdns;
    forall i | 0 <= i < |parts| ensures ',' !in parts[i] {
      if i >= |ous| {
        assert parts[i] == rdns[i - |ous|] == "DC=" + labels[i - |ous|];
      }
    }
    assert |parts| >= 1;
    SplitJoin(parts, ',');
    DcValuesAppend(ous, rdns);
    DcValuesNone(ous);
    DcValuesOfRdns(labels);
    assert [] + labels == labels;
  }

  lemma JoinCons(h: string, t: seq<string>, sep: string)
    requires |t| >= 1
    ensures Join([h] + t, sep) == h + sep + Join(t, sep)
  {
    assert ([h] + t)[1..] == t;
  }

  /** An organisational unit RDN holds no comma and is not a domain component. */
  lemma OuRdn(unit: string)
    requires ',' !in unit
    ensures ',' !in "OU=" + unit && !IsDcRdn("OU=" + unit)
  {
    var ou := "OU=" + unit;
    NotDcRdn(ou);
    forall i | 0 <= i < |ou| ensures ou[i] != ',' {
      if i >= 3 {
        assert ou[i] == unit[i - 3];
      }
    }
  }

  /** The base DN the provisioning code mentions, one organisational unit in
      front of the domain components: `OU=<unit>,DC=a,DC=b,...` gives `a.b...`. */
  lemma DomainSuffixUnderOu(domain: Option<string>, unit: string, labels: seq<string>)
    requires !Truthy(domain)
    requires ',' !in unit
    requires |labels| >= 1
    requires forall i :: 0 <= i < |labels| ==> PlainLabel(labels[i])
    ensures DomainSuffix(domain, "OU=" + unit + "," + Join(DcRdns(labels), ",")) == Join(labels, ".")
  {
    var ou := "OU=" + unit;
    OuRdn(unit);
    var rdns := DcRdns(labels);
    JoinCons(ou, rdns, ",");
    DomainSuffixOfOuBase(domain, [ou], labels);
  }

  /** With no domain configured and no domain component in the base DN, the
      suffix falls back to "local". */
  lemma DomainSuffixLocal(domain: Option<string>, parts: seq<string>)
    requires !Truthy(domain)
    requires |parts| >= 1
    requires forall i :: 0 <= i < |parts| ==> ',' !in parts[i] && !IsDcRdn(parts[i])
    ensures DomainSuffix(domain, Join(parts, ",")) == "local"
  {
    SplitJoin(parts, ',');
    DcValuesNone(parts);
  }

  // ---------------------------------------------------------------------------
  // Where new objects go

  /** `base_dn.lower().strip().startswith('dc=')`: the base is a domain root,
      not an OU. */
  predicate IsDcRoot(base: string) {
    StartsWith(Strip(Lower(base)), "dc=")
  }

  /** The container of a new user (`create_ad_user`): `cn=Users` under a
      domain root, the base itself when it names an OU. */
  function UserContainer(base: string): string {
    if IsDcRoot(base) then "cn=Users," + base else base
  }

  /** The DN of a new user: `cn=<name>,cn=Users,<base>` or `cn=<name>,<base>`. */
  function UserDn(base: string, username: string): string {
    "cn=" + username + "," + UserContainer(base)
  }

  /** The container of a new computer (`create_computer`). */
  function ComputerContainer(base: string): string {
    if IsDcRoot(base) then "CN=Computers," + base else base
  }

  /** The DN of a new computer; the name is already upper-cased. */
  function ComputerDn(base: string, name: string): string {
    "CN=" + name + "," + ComputerContainer(base)
  }

  /** The DN of a new DNS node (`create_dns_record`). */
  function RecordDn(hostname: string, zoneDn: string): string {
    "DC=" + hostname + "," + zoneDn
  }

  /** The first RDN of a DN: everything before the first comma. */
  function FirstRdn(dn: string): string {
    var k := Find(dn, ",");
    if k < 0 then dn else dn[..k]
  }

  /** The parent DN: everything after the first comma. */
  function ParentDn(dn: string): string {
    var k := Find(dn, ",");
    if k < 0 then "" else dn[k + 1..]
  }

  lemma SplitAtFirstComma(rdn: string, parent: string)
    requires ',' !in rdn
    ensures FirstRdn(rdn + "," + parent) == rdn
    ensures ParentDn(rdn + "," + parent) == parent
  {
    FindFirst(rdn, ',', parent);
  }

  /** A new user's own RDN is `cn=<name>` and it sits in `cn=Users` under a
      domain root, directly under the base otherwise. */
  lemma UserDnPlacement(base: string, username: string)
    requires ',' !in username
    ensures FirstRdn(UserDn(base, username)) == "cn=" + username
    ensures ParentDn(UserDn(base, username)) ==
      if IsDcRoot(base) then "cn=Users," + base else base
  {
    SplitAtFirstComma("cn=" + username, UserContainer(base));
  }

  /** A new computer's RDN is `CN=<NAME>` and it sits in `CN=Computers` under a
      domain root, directly under the base otherwise. */
  lemma ComputerDnPlacement(base: string, name: string)
    requires ',' !in name
    ensures FirstRdn(ComputerDn(base, name)) == "CN=" + name
    ensures ParentDn(ComputerDn(base, name)) ==
      if IsDcRoot(base) then "CN=Computers," + base else base
  {
    SplitAtFirstComma("CN=" + name, ComputerContainer(base));
  }

  /** A new DNS node is the child `DC=<host>` of its zone. */
  lemma RecordDnPlacement(hostname: string, zoneDn: string)
    requires ',' !in hostname
    ensures FirstRdn(RecordDn(hostname, zoneDn)) == "DC=" + hostname
    ensures ParentDn(RecordDn(hostname, zoneDn)) == zoneDn
  {
    SplitAtFirstComma("DC=" + hostname, zoneDn);
  }

  // ---------------------------------------------------------------------------
  // Zone containers

  /** The lower-cased base DN from its first `dc=` on, if it has one. */
  function DomainRoot(base: string): (root: Option<string>)
    ensures root.Some? <==> Contains(Lower(base), "dc=")
    ensures root.Some? ==>
      StartsWith(root.value, "dc=") && |root.value| <= |base| &&
      Lower(base)[|base| - |root.value|..] == root.value &&
      forall i :: 0 <= i < |base| - |root.value| ==> !OccursAt(Lower(base), "dc=", i)
  {
    var lower := Lower(base);
    var k := Find(lower, "dc=");
    if k < 0 then None else Some(lower[k..])
  }

  /** The three containers `get_dns_zones` probes, in order; each one lies
      under the domain root. */
  function ZoneSearchPaths(root: string): (paths: seq<string>)
    ensures |paths| == 3
    ensures forall i :: 0 <= i < 3 ==>
      |root| < |paths[i]| && paths[i][|paths[i]| - |root| - 1..] == "," + root
  {
    [ "DC=DomainDnsZones," + root,
      "CN=MicrosoftDNS,DC=DomainDnsZones," + root,
      "CN=MicrosoftDNS,CN=System," + root ]
  }

  // ---------------------------------------------------------------------------
  // Search filters

  const ZoneFilter: string := "(objectClass=dnsZone)"

  const NodeFilter: string := "(&(objectClass=dnsNode)(!(dNSTombstoned=TRUE)))"

  /** The filter `find_dn_by_name` uses for a user; the name is inserted as is. */
  function UserFilter(name: string): string {
    "(&(objectClass=user)(sAMAccountName=" + name + ")(!(objectClass=computer)))"
  }

  /** The filter `find_dn_by_name` uses for a group; the name is inserted as is. */
  function GroupFilter(name: string): string {
    "(&(objectClass=group)(cn=" + name + "))"
  }
}
