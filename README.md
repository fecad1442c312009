# ad-manager: a Dafny model of the directory operations

ad-manager is a small web front end for an Active Directory domain. It is
used to create and delete user and computer accounts, change group
membership, and list, create and delete DNS records stored in the directory.
All of that logic lives in `app/ad_ops.py`. This project models that module:

- the choice of bind identity (`get_ad_connection`, `verify_ad_login`);
- the derivation of the domain suffix and of the DNs of new objects;
- the name check that runs before any connection is opened;
- the binary `dnsRecord` value, built by `_encode_dns_name` and
  `_create_dns_record_bytes`. It is a 24-byte header followed by an A
  address or a counted CNAME name, as laid out in section 2.3.2.2 of
  [MS-DNSP];
- the DNS record listing: its filter, its classification by type byte, and
  its sort by name;
- the zone catalogue, kept in first-seen order;
- the attribute sets of new users, computers and DNS nodes;
- every operation's calls on the LDAP connection and the `(success, message)`
  pair it returns.

The LDAP connection is the class `Ldap.Directory`. Each call appends an event,
together with the directory's reply, to a ghost log. The replies are arbitrary,
and `conn.result` is the one real field of the class. Each operation method
states the exact log it leaves behind and its result as a function of the
replies. In particular, a name that fails validation leaves the log unchanged.

Modules, leaf first:

- `Wrappers`: Option, Result, and `Raisable`, which is either a value or an
  exception.
- `Strings`: the Python string methods the module uses, restricted to ASCII.
- `Validation`: `escape_filter_chars` and the name check.
- `Identity`: the bind identity.
- `Naming`: the domain suffix, DN placement and search filters.
- `DnsCodec`: the record codec and its decoders.
- `Ldap`: the connection.
- `Listing`: `get_dns_records`' rows.
- `Zones`: `get_dns_zones`' catalogue.
- `Provisioning`: attribute sets and UTF-16LE.
- `Operations`: the operations themselves.

Two behaviours of the code are easy to miss, and the model keeps both:

- `find_dn_by_name` (app/ad_ops.py:66-69) puts the name into the search
  filter unescaped, and so do `Naming.UserFilter` and `Naming.GroupFilter`.
- A name made only of dashes is rejected, because `''.isalnum()` is false
  (`Validation.ValidNameIff`, `Validation.RejectsDashesOnly`).

## Model

| member | source | states |
|---|---|---|
| Strings.Lower | app/ad_ops.py:127 | `str.lower()` keeps the length and lower-cases each character on its own |
| Strings.Upper | app/ad_ops.py:395 | `str.upper()` keeps the length and upper-cases each character on its own |
| Strings.Strip | app/ad_ops.py:126 | `str.strip()`; what it keeps is stated by `StripShape` and `StripIdempotent` |
| Strings.StripShape | app/ad_ops.py:126 | `str.strip()` yields a slice `s[a..b]` of its input, everything outside the slice is whitespace, and the slice neither starts nor ends with whitespace |
| Strings.StripIdempotent | app/ad_ops.py:244 | stripping twice is stripping once |
| Strings.Find | app/ad_ops.py:86 | `s.find(sub)` is -1 exactly when `sub` occurs nowhere, else the first index where it occurs |
| Strings.ContainsChar | app/ad_ops.py:33 | `'@' in s` on strings is membership of the character |
| Strings.RemoveChar | app/ad_ops.py:240 | `replace('-', '')` removes every dash and keeps every other character |
| Strings.Split | app/ad_ops.py:56 | `split(c)` yields at least one piece and no piece holds the separator |
| Strings.JoinSplit | app/ad_ops.py:56 | joining the pieces of a split with the separator gives the string back |
| Strings.SplitJoin | app/ad_ops.py:306 | splitting a join of separator-free pieces gives the pieces back |
| Validation.EscapeIdentity | app/ad_ops.py:237 | escaping leaves a string without filter metacharacters unchanged |
| Validation.EscapeLeavesBackslash | app/ad_ops.py:237-240 | a name holding a filter metacharacter escapes to text holding a backslash |
| Validation.ValidName | app/ad_ops.py:237-241 | the check `escape_filter_chars(name).replace('-', '').isalnum()`; what it accepts is stated by `ValidNameIff` |
| Validation.ValidNameIff | app/ad_ops.py:237-241 | a name is accepted iff it holds only ASCII letters, digits and dashes, and at least one character that is not a dash |
| Validation.RejectsForeignChar | app/ad_ops.py:285-289 | any character outside letters, digits and dash rejects the name |
| Validation.RejectsDashesOnly | app/ad_ops.py:381-385 | an empty or all-dash name is rejected |
| Validation.ValidNameIsStripped | app/ad_ops.py:240-244 | an accepted host name is unchanged by `strip()` |
| Validation.ValidNameIsInert | app/ad_ops.py:283-303 | an accepted name holds no `,` `=` `+` `@` `.` and no filter metacharacter |
| Validation.ValidNameUpper | app/ad_ops.py:384-395 | upper-casing neither makes nor breaks an accepted name |
| Identity.Principal | app/ad_ops.py:33-36 | the principal starts with the account and holds `@` iff the account does or a domain is set; an account holding `@`, or no domain, leaves the account unchanged |
| Identity.PrincipalIdempotent | app/ad_ops.py:33-36 | completing a principal twice changes nothing |
| Identity.PrincipalSuffix | app/ad_ops.py:33-34 | without an `@` and with a domain, the principal ends in `@<domain>` |
| Identity.BindCredentials | app/ad_ops.py:21-38 | without both session values the fallback account is used unchanged; with both, the session password and the session account completed by `Principal` with the configured domain |
| Identity.LoginPrincipal | app/ad_ops.py:443-447 | the login principal always holds `@` and starts with the user name; a name holding `@` is used as is, any other name is followed by `@` and the rendered domain |
| Identity.LoginMatchesSessionBind | app/ad_ops.py:443-447 | with a domain set, logging in and later binding from the session use the same principal and password |
| Identity.LoginDiffersWithoutDomain | app/ad_ops.py:444-445 | with no domain configured, login binds as `<user>@None` while the session bind uses the bare name |
| Naming.DcRdnHasEquals | app/ad_ops.py:57 | a `dc=` part always holds `=`, so `split('=')[1]` exists |
| Naming.DcValues | app/ad_ops.py:57 | the comprehension keeps at most one value per part |
| Naming.DcValuesAppend | app/ad_ops.py:57 | the comprehension over a concatenation is the concatenation of the comprehensions |
| Naming.DcValuesOne | app/ad_ops.py:57 | one part gives `p.split('=')[1]` when it is a `dc=` part and nothing otherwise |
| Naming.SpacedDcRdn | app/ad_ops.py:56-57 | a part ` DC=<label>`, as in `DC=a, DC=b`, is a `dc=` part whose value is the label |
| Naming.DcValuesSkip | app/ad_ops.py:57 | a part that is not a `dc=` part contributes nothing |
| Naming.DcValuesNone | app/ad_ops.py:57-59 | parts none of which is a `dc=` part give no values |
| Naming.NotDcRdn | app/ad_ops.py:57 | a part whose first character is neither whitespace nor `d`/`D` is not a `dc=` part |
| Naming.DcValuesOfRdns | app/ad_ops.py:56-57 | the values of `DC=a,DC=b,...` are `a`, `b`, ... |
| Naming.DomainSuffix | app/ad_ops.py:52-60 | a configured domain is returned as is; with none, no `dc=` part gives `local` |
| Naming.DomainSuffixOfDcBase | app/ad_ops.py:52-60 | with no domain configured, a base `DC=a,DC=b` gives the suffix `a.b` |
| Naming.DomainSuffixOfOuBase | app/ad_ops.py:52-60 | with no domain configured, leading comma-free non-`dc=` parts before `DC=a,DC=b` are skipped and the suffix is still `a.b` |
| Naming.DomainSuffixUnderOu | app/ad_ops.py:52-60 | with no domain configured, the base `OU=<unit>,DC=a,DC=b` gives the suffix `a.b` |
| Naming.DomainSuffixLocal | app/ad_ops.py:52-59 | with no domain configured, a base made only of non-`dc=` parts gives `local` |
| Naming.UserDnPlacement | app/ad_ops.py:293-296 | a new user's DN is `cn=<name>` under `cn=Users,<base>` for a domain root, else under the base |
| Naming.ComputerDnPlacement | app/ad_ops.py:400-403 | a new computer's DN is `CN=<NAME>` under `CN=Computers,<base>` for a domain root, else under the base |
| Naming.RecordDnPlacement | app/ad_ops.py:248 | a new DNS node is `DC=<host>` directly under the zone |
| Naming.DomainRoot | app/ad_ops.py:85-88 | a root exists iff the lower-cased base holds `dc=`; it is the lower-cased base from the first `dc=` on |
| Naming.ZoneSearchPaths | app/ad_ops.py:90-94 | there are three probe paths, each a DN ending in `,<root>` |
| DnsCodec.LE16RoundTrip | app/ad_ops.py:221-222 | a little-endian 16-bit field reads back as written |
| DnsCodec.BE32RoundTrip | app/ad_ops.py:225 | the big-endian TTL reads back as written |
| DnsCodec.Header | app/ad_ops.py:219-228 | the header is 24 bytes |
| DnsCodec.HeaderFields | app/ad_ops.py:219-230 | length and type at 0 and 2 (LE16), version 5, rank 0xF0, zero flags and serial, TTL at 12 (BE32), zero reserved and timestamp |
| DnsCodec.OctetRoundTrip | app/ad_ops.py:192 | an octet's decimal text parses back to the octet |
| DnsCodec.OctetCanonical | app/ad_ops.py:192 | a text accepted as an octet is that octet's canonical decimal |
| DnsCodec.ParseIPv4 | app/ad_ops.py:192 | a parsed address has four bytes |
| DnsCodec.IPv4RoundTrip | app/ad_ops.py:192 | a dotted quad parses back to its four bytes |
| DnsCodec.IPv4Canonical | app/ad_ops.py:192 | an accepted address text is the dotted quad of its bytes |
| DnsCodec.NonEmpty | app/ad_ops.py:178 | only non-empty labels are kept, and never more labels than were given |
| DnsCodec.NonEmptyAppend | app/ad_ops.py:177-178 | filtering a concatenation is concatenating the filtered halves |
| DnsCodec.NonEmptyMembers | app/ad_ops.py:177-178 | a label is kept iff it is a non-empty label of the input |
| DnsCodec.AsciiBytes | app/ad_ops.py:179 | `encode('ascii')` gives one byte per character with the same code |
| DnsCodec.AsciiRoundTrip | app/ad_ops.py:179 | ASCII bytes decode back to the label |
| DnsCodec.EncodeLabelsErrors | app/ad_ops.py:177-179 | encoding labels fails only on a label over 255 bytes or a non-ASCII label |
| DnsCodec.EncodeLabelsOk | app/ad_ops.py:177-179 | labels that are ASCII and at most 255 long always encode |
| DnsCodec.EncodeLabelsFails | app/ad_ops.py:177-179 | one non-empty label over 255 characters or holding a non-ASCII character makes the encoding fail |
| DnsCodec.EncodeLabelsIff | app/ad_ops.py:177-179 | the labels encode iff no non-empty label is over 255 characters or non-ASCII |
| DnsCodec.EncodedNameIff | app/ad_ops.py:172-181 | `_encode_dns_name` raises iff one of the stripped value's labels is non-empty and over 255 characters or non-ASCII |
| DnsCodec.EncodeLabelList | app/ad_ops.py:176-179 | the accumulating loop equals the label encoding, stopping at the first failing label |
| DnsCodec.EncodedName | app/ad_ops.py:172-181 | `_encode_dns_name` of a string; its bytes are stated by `EncodeDnsName`, `DecodeEncodeLabels` and `EncodedLength`, and when it fails by `EncodedNameIff` |
| DnsCodec.EncodeDnsName | app/ad_ops.py:172-181 | `_encode_dns_name` equals the encoded labels of the stripped value followed by a zero byte |
| DnsCodec.DecodeEncodeLabels | app/ad_ops.py:172-181 | an encoded name decodes back to the non-empty labels |
| DnsCodec.EncodedLength | app/ad_ops.py:176-180 | the encoded labels take one length byte plus the letters of each non-empty label |
| DnsCodec.CnamePayload | app/ad_ops.py:194-212 | the CNAME branch of `_create_dns_record_bytes`; its bytes are stated by `CnamePayloadShape`, `CnameLabelCountFits` and `CnameExample`, and when it fails by `CnamePayloadIff` |
| DnsCodec.CnamePayloadShape | app/ad_ops.py:194-212 | a CNAME payload is `[len(raw), labelCount] + raw` where `raw` decodes to the non-empty labels |
| DnsCodec.CnameLabelCountFits | app/ad_ops.py:200-210 | when the raw name fits in 255 bytes, the label count fits too |
| DnsCodec.CnamePayloadIff | app/ad_ops.py:194-212 | the payload is built iff no label is bad and the encoded name (a length byte and the letters per label, plus the terminator) is at most 255 bytes; more than 255 labels always fails |
| DnsCodec.CnameExample | app/ad_ops.py:203-212 | `www.example.com` gives a 19-byte payload `17, 3, ...` whose name reads `www`, `example`, `com` |
| DnsCodec.Payload | app/ad_ops.py:189-215 | a payload exists only for types 1 and 5, is at most 257 bytes, and for an A record exists iff the address parses |
| DnsCodec.RecordBytes | app/ad_ops.py:183-233 | a record is at least 24 bytes; any type other than 1 or 5 fails with the unsupported-type error |
| DnsCodec.RecordRoundTrip | app/ad_ops.py:217-230 | every built record parses back to its type, TTL and payload, with the declared length equal to the payload length |
| DnsCodec.ARecordBytes | app/ad_ops.py:191-192 | an A record is the header followed by exactly the four address bytes |
| DnsCodec.ARecordIff | app/ad_ops.py:191-192 | an A record is built iff the address parses and the TTL fits 32 bits |
| DnsCodec.UnsupportedTypeIff | app/ad_ops.py:214-215 | the unsupported-type error occurs iff the type is neither 1 nor 5 |
| Ldap.Directory.Open | app/ad_ops.py:49 | the bind is logged with its reply, and a reply sets `conn.result` |
| Ldap.Directory.Query | app/ad_ops.py:72 | the search is logged with its reply, and a reply sets `conn.result` |
| Ldap.Directory.Insert | app/ad_ops.py:260 | the add is logged with its reply, and a reply sets `conn.result` |
| Ldap.Directory.Remove | app/ad_ops.py:322 | the delete is logged with its reply, and a reply sets `conn.result` |
| Ldap.Directory.Enrol | app/ad_ops.py:363 | the membership addition is logged with its reply |
| Ldap.Directory.Withdraw | app/ad_ops.py:365 | the membership removal is logged with its reply |
| Ldap.Directory.Close | app/ad_ops.py:456 | the unbind is logged with its reply, which may be an exception, and `conn.result` is unchanged |
| Listing.BlobKind | app/ad_ops.py:143-153 | a blob reads as A iff it is over 2 bytes long and byte 2 is 1, as CNAME iff byte 2 is 5 |
| Listing.RowOf | app/ad_ops.py:124-166 | the row one entry gives, if any; when there is one is stated by `RowOfIff` |
| Listing.RowOfIff | app/ad_ops.py:124-166 | an entry gives a row iff its stripped name is not reserved, does not start with `_`, and its first blob reads as A or CNAME |
| Listing.Surfaced | app/ad_ops.py:124-166 | the rows collected in entry order; which rows is stated by `SurfacedIff` and `SurfacedShown` |
| Listing.SurfacedIff | app/ad_ops.py:124-166 | a row is collected iff some entry produces it |
| Listing.SurfacedShown | app/ad_ops.py:126-138 | no collected row has a reserved or `_` name, and every name is stripped |
| Listing.NameLeTotal | app/ad_ops.py:168 | any two names are ordered one way or the other |
| Listing.NameLeTrans | app/ad_ops.py:168 | the name order is transitive |
| Listing.NameLeAntisym | app/ad_ops.py:168 | names ordered both ways are equal |
| Listing.InsertRow | app/ad_ops.py:168 | inserting adds exactly the one row |
| Listing.SortByName | app/ad_ops.py:168 | sorting keeps exactly the same rows |
| Listing.InsertRowSorted | app/ad_ops.py:168 | insertion into a sorted list keeps it sorted |
| Listing.SortByNameSorted | app/ad_ops.py:168 | the sorted rows are in ascending name order |
| Listing.SortByNameKeepsSorted | app/ad_ops.py:168 | rows already in order are left as they are |
| Listing.SortByNameIdempotent | app/ad_ops.py:168 | sorting twice is sorting once |
| Listing.CollectRecords | app/ad_ops.py:120-168 | the loop returns the shown rows in ascending name order, exactly the rows some entry produces |
| Listing.BuiltRecordKind | app/ad_ops.py:149-153 | a blob built with type 1 or 5 is listed as A or CNAME respectively |
| Listing.LowByteAgrees | app/ad_ops.py:149 | reading byte 2 agrees with the full type field when byte 3 is zero |
| Listing.HighByteMisread | app/ad_ops.py:149 | a blob classified while byte 3 is not zero has a type that is neither A nor CNAME |
| Listing.WideTypesMisread | app/ad_ops.py:149 | types 257 and 261 are listed as A and CNAME though they are neither |
| Zones.Catalogue | app/ad_ops.py:96-106 | the zones kept after the given entries; which ones is stated by `CatalogueIff`, `CatalogueDistinct` and `CataloguePrefix` |
| Zones.CatalogueIff | app/ad_ops.py:99-106 | a zone is kept iff its name matches the target case-insensitively and it is the first entry of that name |
| Zones.CatalogueHasName | app/ad_ops.py:104-106 | every matching name seen ends up in the catalogue |
| Zones.CatalogueDistinct | app/ad_ops.py:96-106 | no two kept zones share a name |
| Zones.CataloguePrefix | app/ad_ops.py:99-106 | zones kept earlier keep their place when more entries follow |
| Zones.ThrownProbeIgnored | app/ad_ops.py:100-108 | a probe that raises leaves the catalogue unchanged |
| Provisioning.EncodeChar | app/ad_ops.py:298 | each character takes two or four UTF-16LE bytes |
| Provisioning.Utf16LeRoundTrip | app/ad_ops.py:298 | UTF-16LE decoding gives the encoded string back |
| Provisioning.Utf16LeLength | app/ad_ops.py:298 | characters below U+10000 take two bytes each |
| Provisioning.QuotedPasswordShape | app/ad_ops.py:298 | the stored password decodes to the quoted password, with quote code units at both ends |
| Provisioning.UserAttributes | app/ad_ops.py:298-310 | the attribute map of app/ad_ops.py:301-310, entry for entry; `UserPasswordDecodes`, `UserPrincipalIsLoginPrincipal` and `DisplayNameSplits` state the derived entries |
| Provisioning.UserPasswordDecodes | app/ad_ops.py:298-307 | the user's `unicodePwd` decodes to the password in double quotes |
| Provisioning.UserPrincipalIsLoginPrincipal | app/ad_ops.py:299-303 | with a domain set, the new user's principal name is the one the login page binds with |
| Provisioning.DisplayNameSplits | app/ad_ops.py:306 | the display name splits back into given name and surname when neither holds a space |
| Provisioning.ComputerDomain | app/ad_ops.py:391-393 | the computer's domain is the same suffix users get |
| Provisioning.ComputerAttributes | app/ad_ops.py:411-425 | the attribute map of app/ad_ops.py:411-425, entry for entry; `ComputerHostName` and `ServicePrincipalNamesIff` state the derived entries |
| Provisioning.ComputerHostName | app/ad_ops.py:395-416 | the first dot of `dNSHostName` follows the upper-cased name, and the domain follows it |
| Provisioning.ServicePrincipalNamesIff | app/ad_ops.py:418-423 | the SPNs are exactly `HOST` and `RestrictedKrbHost`, each for the short and the full host name |
| Provisioning.TypeCode | app/ad_ops.py:251 | the type code is 1 or 5, and it is 1 exactly when the record type is `A` |
| Provisioning.RecordFailures | app/ad_ops.py:251-252 | building a record for the create call fails only on a bad address or name, never on type or TTL |
| Operations.ProbeEvents | app/ad_ops.py:99-101 | one zone search per probe path, in path order, each with its reply |
| Operations.Connect | app/ad_ops.py:16-50 | exactly one bind, with the server and the credentials `BindCredentials` chooses |
| Operations.FindDnByName | app/ad_ops.py:64-75 | a user or group lookup is one search whose first entry gives the DN; any other type finds nothing without a search |
| Operations.GetDnsZones | app/ad_ops.py:79-109 | no root: empty, after the bind only. Otherwise three probes, and the result is the catalogue of the answering probes: distinct names, all matching the target |
| Operations.AdmitZones | app/ad_ops.py:102-106 | the inner loop extends the catalogue and its name set by one probe's entries |
| Operations.GetDnsRecords | app/ad_ops.py:111-168 | one bind, one node search; the result is the sorted shown rows of the reply |
| Operations.CreateDnsRecord | app/ad_ops.py:235-269 | a bad name returns the illegal-name message with no call made. Otherwise the bind, then either the codec error or one add of `DC=<host>,<zone>`; "exists" in any case is reported apart |
| Operations.DeleteAdObject | app/ad_ops.py:319-327 | one bind, one delete; success iff the result code is 0 |
| Operations.DeleteDnsRecord | app/ad_ops.py:271-272 | deleting a record is deleting the object |
| Operations.CreateAdUser | app/ad_ops.py:283-317 | a bad name returns the illegal-name message with no call made; otherwise the bind and one add with the user's DN and attributes |
| Operations.ManageGroupMember | app/ad_ops.py:356-371 | the bind and two lookups, then not-found unless both DNs are known. Then at most one membership call; for another action the user lookup's result code decides |
| Operations.CreateComputer | app/ad_ops.py:379-433 | a bad name returns the illegal-name message with no call made; otherwise the bind and one add with the upper-cased name's DN and attributes |
| Operations.VerifyAdLogin | app/ad_ops.py:435-461 | one bind as the login principal; a bind answering code 0 is followed by one unbind. Success iff the bind answers code 0 and the unbind does not raise; a raising bind or unbind gives the login-failed message with its text |

## Left out

- `log` (app/ad_ops.py:11-14) writes to standard error; it is not modelled.
- The TLS context and the `Server` object (app/ad_ops.py:41-46, 451) are not modelled. A bind records only the server address and the credentials.
- `get_all_users`, `get_all_groups`, `get_all_computers` and `get_group_members_with_details` are not modelled. Each is a single search whose entries are passed on unprocessed.
- `reset_user_password` (app/ad_ops.py:463-482) is not modelled. It is one lookup followed by ldap3's password extension, and the quoted password it computes is never used.
- `AD_BASEDN` is taken to be set: `Config.baseDn` is a string. The code reads it with `os.getenv` (app/__init__.py:30), so it may be None. Then `get_dns_zones`, `create_ad_user` and `create_computer` raise AttributeError on `base_dn.lower()` (app/ad_ops.py:85, 293, 400), as does `_get_domain_suffix` at app/ad_ops.py:56 when no domain is set. The searches would also pass None to ldap3. None of these failures is modelled.
- app/utils.py, the route modules and app/__init__.py are not part of this model. They load configuration and serve HTTP. `Config` and `Session` stand for the values they supply.
- The ldap3 library is not part of this model:
  - `conn.add` and `conn.delete` are taken to return true exactly when the result code is 0;
  - `conn.bound` after `auto_bind=True` is taken to be true exactly when the bind answers with code 0;
  - a bind that fails raises, which is the `Threw` reply.
- Each Python call opens its own connection; the model passes one `Directory` object to each operation. Its log is shared history, and `conn.result` is read only after a call of the same operation has set it.
- Exception texts are abstracted: a raising call carries an arbitrary description, and the codec errors carry fixed texts.
- DnsCodec.ParseIPv4: accepts only four decimal octets without leading zeros, while `socket.inet_aton` also accepts shorter, octal and hexadecimal forms.
- Validation.ValidNameIff: letters and digits are ASCII only. Python's `isalnum()` also accepts non-ASCII letters and digits, which the model rejects.
- Strings.Lower: only ASCII letters change case; Python's `lower()` also maps non-ASCII letters.
- Strings.Upper: only ASCII letters change case; Python's `upper()` also maps non-ASCII letters.
- Strings.StripShape: whitespace is the ASCII set plus the separators 28-31; Python's `strip()` also removes non-ASCII spaces.
- Listing.SortByName: the sort is an insertion sort that keeps equal names in input order, but that stability is not proved.
- `str(entry.dc)` and `str(entry.name)` of a missing attribute (the text `[]`) are not modelled; every entry carries its attributes as text.
- A `Threw` probe contributes no zones. In the source, an exception raised part way through the entries of a probe would keep the zones appended before it; the model's entry loop cannot raise.
- `encode('utf-16-le')` never fails here, because Dafny characters are Unicode scalar values and so lone surrogates cannot occur.
