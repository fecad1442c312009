/** The attribute sets `create_ad_user`, `create_computer` and
    `create_dns_record` hand to `conn.add`, and the UTF-16LE encoding of the
    quoted password that Active Directory expects in `unicodePwd`. */
module Provisioning {
  import opened Wrappers
  import opened Strings
  import opened Identity
  import opened Naming
  import opened Validation
  import opened DnsCodec
  import opened Ldap

  // ---------------------------------------------------------------------------
  // UTF-16LE

  /** One character as UTF-16 code units, little-endian: two bytes below
      U+10000, a surrogate pair above. */
  function EncodeChar(c: char): (b: seq<byte>)
    ensures |b| == 2 || |b| == 4
  {
    var v := c as int;
    if v < 0x1_0000 then LE16(v)
    else
      var w := v - 0x1_0000;
      LE16(0xD800 + w / 0x400) + LE16(0xDC00 + w % 0x400)
  }

  /** `s.encode('utf-16-le')`. Characters are Unicode scalar values, so the
      encoding never fails. */
  function Utf16Le(s: string): seq<byte> {
    if s == [] then [] else EncodeChar(s[0]) + Utf16Le(s[1..])
  }

  /** `b.decode('utf-16-le')`, the inverse of `Utf16Le`: `None` for an odd
      length or a lone surrogate. */
  function DecodeUtf16Le(b: seq<byte>): Option<string>
    decreases |b|
  {
    if b == [] then Some([])
    else if |b| < 2 then None
    else
      var u := ReadLE16(b, 0);
      if 0xD800 <= u < 0xDC00 then
        if |b| < 4 then None
        else
          var l := ReadLE16(b, 2);
          if 0xDC00 <= l < 0xE000 then
            var c := (0x1_0000 + (u - 0xD800) * 0x400 + (l - 0xDC00)) as char;
            match DecodeUtf16Le(b[4..])
            case None => None
            case Some(rest) => Some([c] + rest)
          else None
      else if 0xDC00 <= u < 0xE000 then None
      else
        match DecodeUtf16Le(b[2..])
        case None => None
        case Some(rest) => Some([u as char] + rest)
  }

  /** Decoding reads back the character at the front. */
  lemma DecodeChar(c: char, rest: seq<byte>)
    ensures DecodeUtf16Le(EncodeChar(c) + rest) ==
      match DecodeUtf16Le(rest)
      case None => None
      case Some(s) => Some([c] + s)
  {
    var v := c as int;
    var b := EncodeChar(c) + rest;
    if v < 0x1_0000 {
      LE16RoundTrip(v);
      assert ReadLE16(b, 0) == v;
      assert b[2..] == rest;
      assert v as char == c;
    } else {
      var w := v - 0x1_0000;
      var hi := 0xD800 + w / 0x400;
      var lo := 0xDC00 + w % 0x400;
      LE16RoundTrip(hi);
      LE16RoundTrip(lo);
      assert ReadLE16(b, 0) == hi;
      assert ReadLE16(b, 2) == lo;
      assert b[4..] == rest;
      assert 0x1_0000 + (hi - 0xD800) * 0x400 + (lo - 0xDC00) == v;
    }
  }

  /** Decoding the UTF-16LE encoding gives back the string. */
  lemma {:induction false} Utf16LeRoundTrip(s: string)
    ensures DecodeUtf16Le(Utf16Le(s)) == Some(s)
  {
    if s != [] {
      Utf16LeRoundTrip(s[1..]);
      DecodeChar(s[0], Utf16Le(s[1..]));
      assert s == [s[0]] + s[1..];
    }
  }

  /** Characters below U+10000 take two bytes each. */
  lemma {:induction false} Utf16LeLength(s: string)
    requires forall i :: 0 <= i < |s| ==> s[i] as int < 0x1_0000
    ensures |Utf16Le(s)| == 2 * |s|
  {
    if s != [] {
      Utf16LeLength(s[1..]);
    }
  }

  lemma Utf16LeAppend(a: string, b: string)
    ensures Utf16Le(a + b) == Utf16Le(a) + Utf16Le(b)
    decreases |a|
  {
    if a != [] {
      assert (a + b)[1..] == a[1..] + b;
      Utf16LeAppend(a[1..], b);
    } else {
      assert a + b == b;
    }
  }

  /** `('"%s"' % password).encode('utf-16-le')` */
  function QuotedPassword(password: string): seq<byte> {
    Utf16Le("\"" + password + "\"")
  }

  /** The stored password decodes to the password between double quotes, and
      its first and last code units are the quote characters. */
  lemma QuotedPasswordShape(password: string)
    ensures DecodeUtf16Le(QuotedPassword(password)) == Some("\"" + password + "\"")
    ensures var b := QuotedPassword(password);
      |b| >= 4 && b[..2] == [0x22, 0] && b[|b| - 2..] == [0x22, 0]
  {
    Utf16LeRoundTrip("\"" + password + "\"");
    Utf16LeAppend("\"" + password, "\"");
    Utf16LeAppend("\"", password);
    assert Utf16Le("\"") == [0x22, 0];
  }

  // ---------------------------------------------------------------------------
  // Users

  /** `userAccountControl` of a new user: NORMAL_ACCOUNT. */
  const NormalAccount: int := 512

  /** The attributes `create_ad_user` adds. */
  function UserAttributes(username: string, password: string, firstname: string, lastname: string,
                          suffix: string): Attributes
  {
    map[
      "sAMAccountName" := Text(username),
      "userPrincipalName" := Text(username + "@" + suffix),
      "givenName" := Text(firstname),
      "sn" := Text(lastname),
      "displayName" := Text(firstname + " " + lastname),
      "unicodePwd" := Octets(QuotedPassword(password)),
      "userAccountControl" := Number(NormalAccount),
      "objectClass" := Texts(["top", "person", "organizationalPerson", "user"])
    ]
  }

  /** With a domain configured, a new user's principal name is exactly the
      principal the login page binds with for that user name. */
  lemma UserPrincipalIsLoginPrincipal(cfg: Config, username: string, password: string,
                                      firstname: string, lastname: string)
    requires Truthy(cfg.domain) && ValidName(username)
    ensures UserAttributes(username, password, firstname, lastname, DomainSuffix(cfg.domain, cfg.baseDn))
      ["userPrincipalName"] == Text(LoginPrincipal(cfg, username))
  {
    ValidNameIsInert(username);
    ContainsChar(username, '@');
  }

  /** The display name splits back into the given name and the surname when
      neither holds a space. */
  lemma DisplayNameSplits(firstname: string, lastname: string)
    requires ' ' !in firstname && ' ' !in lastname
    ensures Split(firstname + " " + lastname, ' ') == [firstname, lastname]
  {
    var parts := [firstname, lastname];
    assert Join(parts, [' ']) == firstname + " " + lastname;
    SplitJoin(parts, ' ');
  }

  /** The password attribute decodes to the quoted password. */
  lemma UserPasswordDecodes(username: string, password: string, firstname: string, lastname: string,
                            suffix: string)
    ensures var a := UserAttributes(username, password, firstname, lastname, suffix)["unicodePwd"];
      a.Octets? && DecodeUtf16Le(a.octets) == Some("\"" + password + "\"")
  {
    QuotedPasswordShape(password);
  }

  // ---------------------------------------------------------------------------
  // Computers

  /** `userAccountControl` of a new computer: WORKSTATION_TRUST_ACCOUNT (4096)
      together with PASSWD_NOTREQD (32). */
  const ComputerAccountControl: int := 4128

  /** The domain `create_computer` uses: AD_DOMAIN, or else the suffix derived
      from the base DN. */
  function ComputerDomain(cfg: Config): (domain: string)
    ensures domain == DomainSuffix(cfg.domain, cfg.baseDn)
  {
    if Truthy(cfg.domain) then cfg.domain.value else DomainSuffix(cfg.domain, cfg.baseDn)
  }

  /** The host name of a computer: `<NAME>.<domain>`. */
  function HostName(name: string, domain: string): string {
    name + "." + domain
  }

  /** The service principal names of a new computer. */
  function ServicePrincipalNames(name: string, domain: string): seq<string> {
    [ "HOST/" + HostName(name, domain),
      "HOST/" + name,
      "RestrictedKrbHost/" + HostName(name, domain),
      "RestrictedKrbHost/" + name ]
  }

  /** The attributes `create_computer` adds; `name` is already upper-cased. */
  function ComputerAttributes(name: string, domain: string): Attributes {
    map[
      "objectClass" := Texts(["top", "person", "organizationalPerson", "user", "computer"]),
      "sAMAccountName" := Text(name + "$"),
      "userAccountControl" := Number(ComputerAccountControl),
      "dNSHostName" := Text(HostName(name, domain)),
      "servicePrincipalName" := Texts(ServicePrincipalNames(name, domain)),
      "displayName" := Text(name + " (Web Created)")
    ]
  }

  /** For an accepted name, the first dot of the host name comes right after
      the upper-cased name, and what follows it is the domain. */
  lemma ComputerHostName(name: string, domain: string)
    requires ValidName(name)
    ensures var n := Upper(name);
      var fqdn := HostName(n, domain);
      Find(fqdn, ".") == |n| && fqdn[..|n|] == n && fqdn[|n| + 1..] == domain
  {
    var n := Upper(name);
    ValidNameUpper(name);
    ValidNameIsInert(n);
    FindFirst(n, '.', domain);
  }

  /** The SPNs are the two services `HOST` and `RestrictedKrbHost`, each for
      the short and for the full host name, and nothing else. */
  lemma ServicePrincipalNamesIff(name: string, domain: string, spn: string)
    ensures spn in ServicePrincipalNames(name, domain) <==>
      exists service, host :: service in ["HOST", "RestrictedKrbHost"] &&
        host in [name, HostName(name, domain)] && spn == service + "/" + host
  {
    var spns := ServicePrincipalNames(name, domain);
    var fqdn := HostName(name, domain);
    var services := ["HOST", "RestrictedKrbHost"];
    var hosts := [name, fqdn];
    assert services[0] in services && services[1] in services;
    assert hosts[0] in hosts && hosts[1] in hosts;
    if spn in spns {
      if spn == spns[0] {
        assert spn == "HOST" + "/" + fqdn;
      } else if spn == spns[1] {
        assert spn == "HOST" + "/" + name;
      } else if spn == spns[2] {
        assert spn == "RestrictedKrbHost" + "/" + fqdn;
      } else {
        assert spn == "RestrictedKrbHost" + "/" + name;
      }
    }
    if exists service, host :: service in ["HOST", "RestrictedKrbHost"] &&
        host in [name, fqdn] && spn == service + "/" + host {
      var service, host :| service in ["HOST", "RestrictedKrbHost"] &&
        host in [name, fqdn] && spn == service + "/" + host;
      assert service == "HOST" || service == "RestrictedKrbHost";
      assert host == name || host == fqdn;
      if service == "HOST" {
        assert spn == spns[if host == fqdn then 0 else 1];
      } else {
        assert spn == spns[if host == fqdn then 2 else 3];
      }
    }
  }

  // ---------------------------------------------------------------------------
  // DNS nodes

  /** `1 if record_type == 'A' else 5` */
  function TypeCode(recordType: string): (code: int)
    ensures code == TypeA || code == TypeCname
    ensures code == TypeA <==> recordType == "A"
  {
    if recordType == "A" then TypeA else TypeCname
  }

  /** The attributes `create_dns_record` adds for a built record. */
  function RecordAttributes(blob: seq<byte>): Attributes {
    map[
      "objectClass" := Texts(["top", "dnsNode"]),
      "dnsRecord" := OctetsList([blob]),
      "dNSTombstoned" := Text("FALSE")
    ]
  }

  /** With the type mapped by `TypeCode` and the default TTL, building a record
      fails only on a bad address or a bad name, never on the type or the TTL. */
  lemma RecordFailures(recordType: string, content: string)
    ensures var r := RecordBytes(TypeCode(recordType), content, DefaultTtl);
      r.Err? ==> r.error in {IllegalAddress, ByteOutOfRange, NonAsciiLabel}
  {
    EncodeLabelsErrors(Labels(content));
  }
}
