/** The LDAP connection that `app/ad_ops.py` opens through ldap3, reduced to
    the calls the module makes. Every call is recorded, together with the reply
    the directory gave, in a ghost log; the replies themselves are chosen by the
    directory and are arbitrary here. The one piece of connection state the
    module reads back, `conn.result`, is a real field. */
module Ldap {
  import opened Wrappers
  import opened Strings

  /** One entry of a search reply, with the attributes the module asks for:
      `distinguishedName`, `name`, `dc` and the `dnsRecord` blobs. */
  datatype Entry = Entry(dn: string, name: string, dc: string, dnsRecord: seq<seq<byte>>)

  /** `conn.result`: the result code of the last operation and its text. */
  datatype LdapResult = LdapResult(code: int, description: string)

  /** What a search hands back: its result and `conn.entries`. */
  datatype Found = Found(result: LdapResult, entries: seq<Entry>)

  /** An attribute value written by `conn.add`. */
  datatype AttrValue =
    | Text(text: string)
    | Texts(texts: seq<string>)
    | Number(number: int)
    | Octets(octets: seq<byte>)
    | OctetsList(blobs: seq<seq<byte>>)

  type Attributes = map<string, AttrValue>

  /** One call on the directory, with its reply; `Threw` is an exception. */
  datatype Event =
    | Bind(server: Option<string>, user: Option<string>, password: Option<string>, bound: Raisable<LdapResult>)
    | Search(base: string, filter: string, fields: seq<string>, found: Raisable<Found>)
    | Add(dn: string, attributes: Attributes, added: Raisable<LdapResult>)
    | Delete(dn: string, deleted: Raisable<LdapResult>)
    | AddMembers(members: seq<string>, groups: seq<string>, modified: Raisable<LdapResult>)
    | RemoveMembers(members: seq<string>, groups: seq<string>, modified: Raisable<LdapResult>)
    | Unbind(unbound: Raisable<bool>)

  /** The result code ldap3 reports for success. */
  const Success: int := 0

  class Directory {
    /** Every call made so far, oldest first. */
    ghost var log: seq<Event>
    /** `conn.result` of the connection in use. */
    var result: LdapResult

    constructor ()
      ensures log == []
    {
      log := [];
      result := LdapResult(Success, "");
    }

    /** `Connection(server, user=..., password=..., auto_bind=True)`: a bind
        that either raises or reports its result. */
    method Open(server: Option<string>, user: Option<string>, password: Option<string>)
      returns (bound: Raisable<LdapResult>)
      modifies this
      ensures log == old(log) + [Bind(server, user, password, bound)]
      ensures result == if bound.Returned? then bound.value else old(result)
    {
      bound := *;
      if bound.Returned? {
        result := bound.value;
      }
      log := log + [Bind(server, user, password, bound)];
    }

    /** `conn.search(base, filter, attributes=...)`. */
    method Query(base: string, filter: string, attributes: seq<string>)
      returns (found: Raisable<Found>)
      modifies this
      ensures log == old(log) + [Search(base, filter, attributes, found)]
      ensures result == if found.Returned? then found.value.result else old(result)
    {
      found := *;
      if found.Returned? {
        result := found.value.result;
      }
      log := log + [Search(base, filter, attributes, found)];
    }

    /** `conn.add(dn, attributes=...)`; it returns true exactly when the
        result code is success. */
    method Insert(dn: string, attributes: Attributes) returns (added: Raisable<LdapResult>)
      modifies this
      ensures log == old(log) + [Add(dn, attributes, added)]
      ensures result == if added.Returned? then added.value else old(result)
    {
      added := *;
      if added.Returned? {
        result := added.value;
      }
      log := log + [Add(dn, attributes, added)];
    }

    /** `conn.delete(dn)`. */
    method Remove(dn: string) returns (deleted: Raisable<LdapResult>)
      modifies this
      ensures log == old(log) + [Delete(dn, deleted)]
      ensures result == if deleted.Returned? then deleted.value else old(result)
    {
      deleted := *;
      if deleted.Returned? {
        result := deleted.value;
      }
      log := log + [Delete(dn, deleted)];
    }

    /** `conn.extend.microsoft.add_members_to_groups(members, groups)`. */
    method Enrol(members: seq<string>, groups: seq<string>) returns (modified: Raisable<LdapResult>)
      modifies this
      ensures log == old(log) + [AddMembers(members, groups, modified)]
      ensures result == if modified.Returned? then modified.value else old(result)
    {
      modified := *;
      if modified.Returned? {
        result := modified.value;
      }
      log := log + [AddMembers(members, groups, modified)];
    }

    /** `conn.extend.microsoft.remove_members_from_groups(members, groups)`. */
    method Withdraw(members: seq<string>, groups: seq<string>) returns (modified: Raisable<LdapResult>)
      modifies this
      ensures log == old(log) + [RemoveMembers(members, groups, modified)]
      ensures result == if modified.Returned? then modified.value else old(result)
    {
      modified := *;
      if modified.Returned? {
        result := modified.value;
      }
      log := log + [RemoveMembers(members, groups, modified)];
    }

    /** `conn.unbind()`: it may raise, as any other call to the server. */
    method Close() returns (unbound: Raisable<bool>)
      modifies this
      ensures log == old(log) + [Unbind(unbound)]
      ensures result == old(result)
    {
      unbound := *;
      log := log + [Unbind(unbound)];
    }
  }
}
