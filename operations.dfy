/** The directory operations of `app/ad_ops.py`. Each one takes the directory
    it talks to, the application configuration and the web session; the
    replies of the directory are returned as ghost values so that each
    contract can say which calls were made and what came of them. A
    `Threw` result is an exception that leaves the Python function. */
module Operations {
  import opened Wrappers
  import opened Strings
  import opened Validation
  import opened Identity
  import opened Naming
  import opened DnsCodec
  import opened Ldap
  import opened Listing
  import opened Zones
  import opened Provisioning

  /** The `(success, message)` pair the operations return. */
  datatype Outcome = Outcome(ok: bool, message: string)

  const IllegalName: string := "名稱包含非法字元"
  const UserCreated: string := "使用者建立成功"
  const Deleted: string := "刪除成功"
  const NotFound: string := "找不到群組或使用者"
  const Updated: string := "更新成功"
  const LoginOk: string := "登入成功"
  const LoginRejected: string := "帳號或密碼錯誤"

  function RecordCreated(hostname: string): string {
    "DNS 紀錄 " + hostname + " 建立成功"
  }

  function RecordExists(hostname: string): string {
    "建立失敗: 紀錄 " + hostname + " 已存在，請先刪除舊紀錄。"
  }

  function ComputerCreated(name: string): string {
    "電腦 " + name + " 建立成功"
  }

  function CreateFailed(description: string): string {
    "建立失敗: " + description
  }

  function DeleteFailed(description: string): string {
    "刪除失敗: " + description
  }

  function UpdateFailed(description: string): string {
    "更新失敗: " + description
  }

  function LoginFailed(description: string): string {
    "登入失敗: " + description
  }

  // ---------------------------------------------------------------------------
  // What each reply leads to

  /** The bind `get_ad_connection` performs for this configuration and session. */
  function ConnectEvent(cfg: Config, session: Session, bound: Raisable<LdapResult>): Event {
    Bind(cfg.server, BindCredentials(cfg, session).user, BindCredentials(cfg, session).password, bound)
  }

  /** The outcome of a `conn.add` inside `try`: success when the result code is
      success, the description otherwise, the exception text if it raised. */
  function AddOutcome(added: Raisable<LdapResult>, success: string): Outcome {
    match added
    case Threw(d) => Outcome(false, d)
    case Returned(res) =>
      if res.code == Success then Outcome(true, success) else Outcome(false, CreateFailed(res.description))
  }

  /** The outcome of adding a DNS node: as `AddOutcome`, except that a
      description mentioning "exists" in any case gets its own message. */
  function RecordAddOutcome(hostname: string, added: Raisable<LdapResult>): Outcome {
    match added
    case Threw(d) => Outcome(false, d)
    case Returned(res) =>
      if res.code == Success then Outcome(true, RecordCreated(hostname))
      else if Contains(Lower(res.description), "exists") then Outcome(false, RecordExists(hostname))
      else Outcome(false, CreateFailed(res.description))
  }

  function DeleteOutcome(deleted: Raisable<LdapResult>): Outcome {
    match deleted
    case Threw(d) => Outcome(false, d)
    case Returned(res) =>
      if res.code == Success then Outcome(true, Deleted) else Outcome(false, DeleteFailed(res.description))
  }

  /** `conn.entries[0].distinguishedName.value` if there is an entry. */
  function FirstDn(found: Raisable<Found>): Raisable<Option<string>> {
    match found
    case Threw(d) => Threw(d)
    case Returned(f) => if f.entries == [] then Returned(None) else Returned(Some(f.entries[0].dn))
  }

  /** The filter `find_dn_by_name` searches with for a `type` it knows. */
  function LookupFilter(kind: string, name: string): string {
    if kind == "user" then UserFilter(name) else GroupFilter(name)
  }

  const DnFields: seq<string> := ["distinguishedName"]
  const ZoneFields: seq<string> := ["dc", "distinguishedName"]
  const NodeFields: seq<string> := ["name", "dnsRecord", "distinguishedName"]

  /** The searches of the zone probes, one per path, with their replies. */
  function ProbeEvents(paths: seq<string>, replies: seq<Raisable<Found>>): (events: seq<Event>)
    requires |paths| == |replies|
    ensures |events| == |paths|
    ensures forall i :: 0 <= i < |paths| ==> events[i] == Search(paths[i], ZoneFilter, ZoneFields, replies[i])
  {
    if paths == [] then []
    else [Search(paths[0], ZoneFilter, ZoneFields, replies[0])] + ProbeEvents(paths[1..], replies[1..])
  }

  // ---------------------------------------------------------------------------
  // Connection and lookup

  /** `get_ad_connection()`: bind as the session's user when the session holds
      both credentials, completing the account with `@AD_DOMAIN`, else as the
      configured fallback account. */
  method Connect(dir: Directory, cfg: Config, session: Session) returns (bound: Raisable<LdapResult>)
    modifies dir
    ensures dir.log == old(dir.log) + [ConnectEvent(cfg, session, bound)]
  {
    var user := cfg.user;
    var password := cfg.password;
    if session.account.Some? && session.password.Some? {
      var current := session.account.value;
      ContainsChar(current, '@');
      if !Contains(current, "@") && cfg.domain.Some? && cfg.domain.value != "" {
        user := Some(current + "@" + cfg.domain.value);
      } else {
        user := Some(current);
      }
      password := session.password;
    }
    bound := dir.Open(cfg.server, user, password);
  }

  /** `find_dn_by_name(conn, name, type)`: one search under the base DN for a
      user or a group; any other type finds nothing without a search. */
  method FindDnByName(dir: Directory, cfg: Config, name: string, kind: string)
    returns (dn: Raisable<Option<string>>, ghost found: Raisable<Found>)
    modifies dir
    ensures kind != "user" && kind != "group" ==> dn == Returned(None) && dir.log == old(dir.log)
    ensures kind == "user" || kind == "group" ==>
      dir.log == old(dir.log) + [Search(cfg.baseDn, LookupFilter(kind, name), DnFields, found)] &&
      dn == FirstDn(found)
    ensures found.Returned? && (kind == "user" || kind == "group") ==> dir.result == found.value.result
    ensures found.Threw? || (kind != "user" && kind != "group") ==> dir.result == old(dir.result)
  {
    found := Threw("");
    var filter: string;
    if kind == "user" {
      filter := UserFilter(name);
    } else if kind == "group" {
      filter := GroupFilter(name);
    } else {
      return Returned(None), found;
    }
    var reply := dir.Query(cfg.baseDn, filter, DnFields);
    found := reply;
    if reply.Threw? {
      return Threw(reply.description), found;
    }
    if reply.value.entries != [] {
      return Returned(Some(reply.value.entries[0].dn)), found;
    }
    return Returned(None), found;
  }

  // ---------------------------------------------------------------------------
  // DNS

  /** `get_dns_zones()`: probe the three zone containers under the base DN's
      domain root and keep each zone of the target domain once. */
  method GetDnsZones(dir: Directory, cfg: Config, session: Session)
    returns (zones: Raisable<seq<Entry>>, ghost bound: Raisable<LdapResult>, ghost replies: seq<Raisable<Found>>)
    modifies dir
    ensures bound.Threw? ==>
      zones == Threw(bound.description) && dir.log == old(dir.log) + [ConnectEvent(cfg, session, bound)]
    ensures bound.Returned? && DomainRoot(cfg.baseDn).None? ==>
      zones == Returned([]) && dir.log == old(dir.log) + [ConnectEvent(cfg, session, bound)]
    ensures bound.Returned? && DomainRoot(cfg.baseDn).Some? ==>
      |replies| == 3 &&
      dir.log == old(dir.log) + [ConnectEvent(cfg, session, bound)] +
        ProbeEvents(ZoneSearchPaths(DomainRoot(cfg.baseDn).value), replies) &&
      zones == Returned(Catalogue(DomainSuffix(cfg.domain, cfg.baseDn), Probed(replies)))
    ensures zones.Returned? ==>
      DistinctNames(zones.value) &&
      (forall z :: z in zones.value ==> Matches(DomainSuffix(cfg.domain, cfg.baseDn), z))
  {
    replies := [];
    var b := Connect(dir, cfg, session);
    bound := b;
    if b.Threw? {
      return Threw(b.description), bound, replies;
    }
    var target := DomainSuffix(cfg.domain, cfg.baseDn);
    var lower := Lower(cfg.baseDn);
    var k := Find(lower, "dc=");
    if k < 0 {
      return Returned([]), bound, replies;
    }
    var paths := ZoneSearchPaths(lower[k..]);
    ghost var start := dir.log;
    var found: seq<Entry> := [];
    var names: set<string> := {};
    var i := 0;
    while i < |paths|
      invariant 0 <= i <= |paths| && |replies| == i
      invariant dir.log == start + ProbeEvents(paths[..i], replies)
      invariant found == Catalogue(target, Probed(replies))
      invariant names == Names(found)
    {
      var reply := dir.Query(paths[i], ZoneFilter, ZoneFields);
      assert (replies + [reply])[..i] == replies;
      if reply.Returned? {
        found, names := AdmitZones(target, Probed(replies), found, names, reply.value.entries);
      }
      ProbeEventsSnoc(paths[..i], replies, paths[i], reply);
      assert paths[..i + 1] == paths[..i] + [paths[i]];
      replies := replies + [reply];
      i := i + 1;
    }
    assert paths[..i] == paths;
    CatalogueDistinct(target, Probed(replies));
    forall z | z in found ensures Matches(target, z) {
      CatalogueIff(target, Probed(replies), z);
    }
    return Returned(found), bound, replies;
  }

  /** The inner loop of `get_dns_zones` over the entries of one probe: append
      each zone of the target domain whose name is not yet in `found_names`. */
  method AdmitZones(target: string, ghost seen: seq<Entry>, found: seq<Entry>, names: set<string>,
                    entries: seq<Entry>)
    returns (found': seq<Entry>, names': set<string>)
    requires found == Catalogue(target, seen) && names == Names(found)
    ensures found' == Catalogue(target, seen + entries) && names' == Names(found')
  {
    found', names' := found, names;
    var j := 0;
    assert seen + entries[..0] == seen;
    while j < |entries|
      invariant 0 <= j <= |entries|
      invariant found' == Catalogue(target, seen + entries[..j])
      invariant names' == Names(found')
    {
      var e := entries[j];
      assert (seen + entries[..j + 1])[..|seen| + j] == seen + entries[..j];
      assert (seen + entries[..j + 1])[|seen| + j] == e;
      if Lower(e.dc) == Lower(target) && e.dc !in names' {
        found' := found' + [e];
        names' := names' + {e.dc};
      }
      j := j + 1;
    }
    assert entries[..j] == entries;
  }

  lemma ProbeEventsSnoc(paths: seq<string>, replies: seq<Raisable<Found>>, path: string, reply: Raisable<Found>)
    requires |paths| == |replies|
    ensures ProbeEvents(paths + [path], replies + [reply]) ==
      ProbeEvents(paths, replies) + [Search(path, ZoneFilter, ZoneFields, reply)]
  {
    var events := ProbeEvents(paths + [path], replies + [reply]);
    var expected := ProbeEvents(paths, replies) + [Search(path, ZoneFilter, ZoneFields, reply)];
    assert |events| == |expected|;
    forall i | 0 <= i < |events| ensures events[i] == expected[i] {
      if i < |paths| {
        assert (paths + [path])[i] == paths[i] && (replies + [reply])[i] == replies[i];
      }
    }
  }

  /** `get_dns_records(zone_dn)`: one search for the live nodes of the zone,
      then the shown rows sorted by name. */
  method GetDnsRecords(dir: Directory, cfg: Config, session: Session, zoneDn: string)
    returns (records: Raisable<seq<Row>>, ghost bound: Raisable<LdapResult>, ghost found: Raisable<Found>)
    modifies dir
    ensures bound.Threw? ==>
      records == Threw(bound.description) && dir.log == old(dir.log) + [ConnectEvent(cfg, session, bound)]
    ensures bound.Returned? ==>
      dir.log == old(dir.log) + [ConnectEvent(cfg, session, bound), Search(zoneDn, NodeFilter, NodeFields, found)]
    ensures bound.Returned? && found.Threw? ==> records == Threw(found.description)
    ensures bound.Returned? && found.Returned? ==>
      records == Returned(SortByName(Surfaced(found.value.entries)))
    ensures records.Returned? ==> SortedByName(records.value)
  {
    found := Threw("");
    var b := Connect(dir, cfg, session);
    bound := b;
    if b.Threw? {
      return Threw(b.description), bound, found;
    }
    var reply := dir.Query(zoneDn, NodeFilter, NodeFields);
    found := reply;
    if reply.Threw? {
      return Threw(reply.description), bound, found;
    }
    var rows := CollectRecords(reply.value.entries);
    return Returned(rows), bound, found;
  }

  /** `create_dns_record(zone_dn, hostname, record_type, value)`: validate the
      host name before connecting, build the record, add the node. */
  method CreateDnsRecord(dir: Directory, cfg: Config, session: Session, zoneDn: string,
                         hostname: string, recordType: string, value: string)
    returns (r: Raisable<Outcome>, ghost bound: Raisable<LdapResult>, ghost added: Raisable<LdapResult>)
    modifies dir
    ensures !ValidName(hostname) ==> r == Returned(Outcome(false, IllegalName)) && dir.log == old(dir.log)
    ensures ValidName(hostname) && bound.Threw? ==>
      r == Threw(bound.description) && dir.log == old(dir.log) + [ConnectEvent(cfg, session, bound)]
    ensures ValidName(hostname) && bound.Returned? ==>
      var blob := RecordBytes(TypeCode(recordType), Strip(value), DefaultTtl);
      (blob.Err? ==>
        r == Returned(Outcome(false, ErrorMessage(blob.error))) &&
        dir.log == old(dir.log) + [ConnectEvent(cfg, session, bound)]) &&
      (blob.Ok? ==>
        r == Returned(RecordAddOutcome(hostname, added)) &&
        dir.log == old(dir.log) + [ConnectEvent(cfg, session, bound),
                                   Add(RecordDn(hostname, zoneDn), RecordAttributes(blob.value), added)])
  {
    added := Threw("");
    bound := Threw("");
    if !IsAlnum(RemoveChar(EscapeFilterChars(hostname), '-')) {
      return Returned(Outcome(false, IllegalName)), bound, added;
    }
    var b := Connect(dir, cfg, session);
    bound := b;
    if b.Threw? {
      return Threw(b.description), bound, added;
    }
    var host := Strip(hostname);
    ValidNameIsStripped(hostname);
    var content := Strip(value);
    var dn := RecordDn(host, zoneDn);
    var blob := RecordBytes(TypeCode(recordType), content, DefaultTtl);
    if blob.Err? {
      return Returned(Outcome(false, ErrorMessage(blob.error))), bound, added;
    }
    var a := dir.Insert(dn, RecordAttributes(blob.value));
    added := a;
    if a.Threw? {
      return Returned(Outcome(false, a.description)), bound, added;
    }
    if a.value.code == Success {
      return Returned(Outcome(true, RecordCreated(host))), bound, added;
    }
    var description := dir.result.description;
    if Contains(Lower(description), "exists") {
      return Returned(Outcome(false, RecordExists(host))), bound, added;
    }
    return Returned(Outcome(false, CreateFailed(description))), bound, added;
  }

  /** `delete_ad_object(object_dn)`: one delete. */
  method DeleteAdObject(dir: Directory, cfg: Config, session: Session, dn: string)
    returns (r: Raisable<Outcome>, ghost bound: Raisable<LdapResult>, ghost deleted: Raisable<LdapResult>)
    modifies dir
    ensures bound.Threw? ==>
      r == Threw(bound.description) && dir.log == old(dir.log) + [ConnectEvent(cfg, session, bound)]
    ensures bound.Returned? ==>
      r == Returned(DeleteOutcome(deleted)) &&
      dir.log == old(dir.log) + [ConnectEvent(cfg, session, bound), Delete(dn, deleted)]
  {
    deleted := Threw("");
    var b := Connect(dir, cfg, session);
    bound := b;
    if b.Threw? {
      return Threw(b.description), bound, deleted;
    }
    var d := dir.Remove(dn);
    deleted := d;
    if d.Threw? {
      return Returned(Outcome(false, d.description)), bound, deleted;
    }
    if d.value.code == Success {
      return Returned(Outcome(true, Deleted)), bound, deleted;
    }
    return Returned(Outcome(false, DeleteFailed(dir.result.description))), bound, deleted;
  }

  /** `delete_dns_record(record_dn)`: the node is deleted like any object. */
  method DeleteDnsRecord(dir: Directory, cfg: Config, session: Session, recordDn: string)
    returns (r: Raisable<Outcome>, ghost bound: Raisable<LdapResult>, ghost deleted: Raisable<LdapResult>)
    modifies dir
    ensures bound.Threw? ==>
      r == Threw(bound.description) && dir.log == old(dir.log) + [ConnectEvent(cfg, session, bound)]
    ensures bound.Returned? ==>
      r == Returned(DeleteOutcome(deleted)) &&
      dir.log == old(dir.log) + [ConnectEvent(cfg, session, bound), Delete(recordDn, deleted)]
  {
    r, bound, deleted := DeleteAdObject(dir, cfg, session, recordDn);
  }

  // ---------------------------------------------------------------------------
  // Users, groups, computers

  /** `create_ad_user(username, password, firstname, lastname)`. */
  method CreateAdUser(dir: Directory, cfg: Config, session: Session, username: string,
                      password: string, firstname: string, lastname: string)
    returns (r: Raisable<Outcome>, ghost bound: Raisable<LdapResult>, ghost added: Raisable<LdapResult>)
    modifies dir
    ensures !ValidName(username) ==> r == Returned(Outcome(false, IllegalName)) && dir.log == old(dir.log)
    ensures ValidName(username) && bound.Threw? ==>
      r == Threw(bound.description) && dir.log == old(dir.log) + [ConnectEvent(cfg, session, bound)]
    ensures ValidName(username) && bound.Returned? ==>
      r == Returned(AddOutcome(added, UserCreated)) &&
      dir.log == old(dir.log) + [ConnectEvent(cfg, session, bound),
        Add(UserDn(cfg.baseDn, username),
            UserAttributes(username, password, firstname, lastname, DomainSuffix(cfg.domain, cfg.baseDn)),
            added)]
  {
    added := Threw("");
    bound := Threw("");
    if !IsAlnum(RemoveChar(EscapeFilterChars(username), '-')) {
      return Returned(Outcome(false, IllegalName)), bound, added;
    }
    var b := Connect(dir, cfg, session);
    bound := b;
    if b.Threw? {
      return Threw(b.description), bound, added;
    }
    var dn := UserDn(cfg.baseDn, username);
    var suffix := DomainSuffix(cfg.domain, cfg.baseDn);
    var a := dir.Insert(dn, UserAttributes(username, password, firstname, lastname, suffix));
    added := a;
    if a.Threw? {
      return Returned(Outcome(false, a.description)), bound, added;
    }
    if a.value.code == Success {
      return Returned(Outcome(true, UserCreated)), bound, added;
    }
    return Returned(Outcome(false, CreateFailed(dir.result.description))), bound, added;
  }

  /** The replies `manage_group_member` depends on. */
  datatype MembershipReplies = MembershipReplies(
    bound: Raisable<LdapResult>,
    groupFound: Raisable<Found>,
    userFound: Raisable<Found>,
    modified: Raisable<LdapResult>)

  /** The membership call an action makes, if any. */
  function MembershipEvent(action: string, userDn: string, groupDn: string, modified: Raisable<LdapResult>): seq<Event> {
    if action == "add" then [AddMembers([userDn], [groupDn], modified)]
    else if action == "remove" then [RemoveMembers([userDn], [groupDn], modified)]
    else []
  }

  /** The outcome once both DNs are known: an exception of the membership call
      is reported, otherwise the last result code decides. For an action other
      than add or remove the last result is that of the user lookup. */
  function MembershipOutcome(action: string, modified: Raisable<LdapResult>, userLookup: LdapResult): Outcome {
    var last := if (action == "add" || action == "remove") && modified.Returned? then modified.value else userLookup;
    if (action == "add" || action == "remove") && modified.Threw? then Outcome(false, modified.description)
    else if last.code == Success then Outcome(true, Updated)
    else Outcome(false, UpdateFailed(last.description))
  }

  /** Python truthiness of a looked-up DN. */
  predicate Known(dn: Raisable<Option<string>>) {
    dn.Returned? && dn.value.Some? && dn.value.value != ""
  }

  /** `manage_group_member(action, group_name, username)`. */
  method ManageGroupMember(dir: Directory, cfg: Config, session: Session, action: string,
                           groupName: string, username: string)
    returns (r: Raisable<Outcome>, ghost replies: MembershipReplies)
    modifies dir
    ensures replies.bound.Threw? ==>
      r == Threw(replies.bound.description) &&
      dir.log == old(dir.log) + [ConnectEvent(cfg, session, replies.bound)]
    ensures replies.bound.Returned? && replies.groupFound.Threw? ==>
      r == Threw(replies.groupFound.description) &&
      dir.log == old(dir.log) + [ConnectEvent(cfg, session, replies.bound),
        Search(cfg.baseDn, GroupFilter(groupName), DnFields, replies.groupFound)]
    ensures replies.bound.Returned? && replies.groupFound.Returned? ==>
      var prefix := old(dir.log) + [ConnectEvent(cfg, session, replies.bound),
        Search(cfg.baseDn, GroupFilter(groupName), DnFields, replies.groupFound),
        Search(cfg.baseDn, UserFilter(username), DnFields, replies.userFound)];
      var groupDn := FirstDn(replies.groupFound);
      var userDn := FirstDn(replies.userFound);
      (replies.userFound.Threw? ==> r == Threw(replies.userFound.description) && dir.log == prefix) &&
      (replies.userFound.Returned? && (!Known(groupDn) || !Known(userDn)) ==>
        r == Returned(Outcome(false, NotFound)) && dir.log == prefix) &&
      (replies.userFound.Returned? && Known(groupDn) && Known(userDn) ==>
        r == Returned(MembershipOutcome(action, replies.modified, replies.userFound.value.result)) &&
        dir.log == prefix + MembershipEvent(action, userDn.value.value, groupDn.value.value, replies.modified))
  {
    replies := MembershipReplies(Threw(""), Threw(""), Threw(""), Threw(""));
    var bound := Connect(dir, cfg, session);
    replies := replies.(bound := bound);
    if bound.Threw? {
      return Threw(bound.description), replies;
    }
    var groupDn, groupFound := FindDnByName(dir, cfg, groupName, "group");
    replies := replies.(groupFound := groupFound);
    if groupDn.Threw? {
      return Threw(groupDn.description), replies;
    }
    var userDn, userFound := FindDnByName(dir, cfg, username, "user");
    replies := replies.(userFound := userFound);
    if userDn.Threw? {
      return Threw(userDn.description), replies;
    }
    if groupDn.value.None? || groupDn.value.value == "" || userDn.value.None? || userDn.value.value == "" {
      return Returned(Outcome(false, NotFound)), replies;
    }
    var modified: Raisable<LdapResult> := Threw("");
    if action == "add" {
      modified := dir.Enrol([userDn.value.value], [groupDn.value.value]);
    } else if action == "remove" {
      modified := dir.Withdraw([userDn.value.value], [groupDn.value.value]);
    }
    replies := replies.(modified := modified);
    if modified.Threw? && (action == "add" || action == "remove") {
      return Returned(Outcome(false, modified.description)), replies;
    }
    if dir.result.code == Success {
      return Returned(Outcome(true, Updated)), replies;
    }
    return Returned(Outcome(false, UpdateFailed(dir.result.description))), replies;
  }

  /** `create_computer(computer_name)`. */
  method CreateComputer(dir: Directory, cfg: Config, session: Session, computerName: string)
    returns (r: Raisable<Outcome>, ghost bound: Raisable<LdapResult>, ghost added: Raisable<LdapResult>)
    modifies dir
    ensures !ValidName(computerName) ==> r == Returned(Outcome(false, IllegalName)) && dir.log == old(dir.log)
    ensures ValidName(computerName) && bound.Threw? ==>
      r == Threw(bound.description) && dir.log == old(dir.log) + [ConnectEvent(cfg, session, bound)]
    ensures ValidName(computerName) && bound.Returned? ==>
      var name := Upper(computerName);
      r == Returned(AddOutcome(added, ComputerCreated(name))) &&
      dir.log == old(dir.log) + [ConnectEvent(cfg, session, bound),
        Add(ComputerDn(cfg.baseDn, name), ComputerAttributes(name, DomainSuffix(cfg.domain, cfg.baseDn)), added)]
  {
    added := Threw("");
    bound := Threw("");
    if !IsAlnum(RemoveChar(EscapeFilterChars(computerName), '-')) {
      return Returned(Outcome(false, IllegalName)), bound, added;
    }
    var b := Connect(dir, cfg, session);
    bound := b;
    if b.Threw? {
      return Threw(b.description), bound, added;
    }
    var domain := ComputerDomain(cfg);
    var name := Upper(computerName);
    var dn := ComputerDn(cfg.baseDn, name);
    var a := dir.Insert(dn, ComputerAttributes(name, domain));
    added := a;
    if a.Threw? {
      return Returned(Outcome(false, a.description)), bound, added;
    }
    if a.value.code == Success {
      return Returned(Outcome(true, ComputerCreated(name))), bound, added;
    }
    return Returned(Outcome(false, CreateFailed(dir.result.description))), bound, added;
  }

  /** `verify_ad_login(username, password)`: bind as the login principal; a
      successful bind is closed again at once, and an unbind that raises is
      reported like a bind that raises. */
  method VerifyAdLogin(dir: Directory, cfg: Config, username: string, password: string)
    returns (r: Outcome, ghost bound: Raisable<LdapResult>, ghost unbound: Option<Raisable<bool>>)
    modifies dir
    ensures bound.Threw? ==>
      r == Outcome(false, LoginFailed(bound.description)) && unbound == None &&
      dir.log == old(dir.log) + [Bind(cfg.server, Some(LoginPrincipal(cfg, username)), Some(password), bound)]
    ensures bound.Returned? && bound.value.code == Success ==>
      unbound.Some? &&
      dir.log == old(dir.log) + [Bind(cfg.server, Some(LoginPrincipal(cfg, username)), Some(password), bound), Unbind(unbound.value)] &&
      r == (if unbound.value.Threw? then Outcome(false, LoginFailed(unbound.value.description)) else Outcome(true, LoginOk))
    ensures bound.Returned? && bound.value.code != Success ==>
      r == Outcome(false, LoginRejected) && unbound == None &&
      dir.log == old(dir.log) + [Bind(cfg.server, Some(LoginPrincipal(cfg, username)), Some(password), bound)]
    ensures r.ok <==> bound.Returned? && bound.value.code == Success && unbound.Some? && unbound.value.Returned?
  {
    var upn: string;
    ContainsChar(username, '@');
    if !Contains(username, "@") {
      upn := username + "@" + Render(cfg.domain);
    } else {
      upn := username;
    }
    var b := dir.Open(cfg.server, Some(upn), Some(password));
    bound := b;
    unbound := None;
    if b.Threw? {
      return Outcome(false, LoginFailed(b.description)), bound, unbound;
    }
    if b.value.code == Success {
      var u := dir.Close();
      unbound := Some(u);
      if u.Threw? {
        return Outcome(false, LoginFailed(u.description)), bound, unbound;
      }
      return Outcome(true, LoginOk), bound, unbound;
    }
    return Outcome(false, LoginRejected), bound, unbound;
  }

}
