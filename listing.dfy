/** The record listing of `get_dns_records`: which entries of a zone are shown,
    how each is labelled from its `dnsRecord` blob, and the order by name. */
module Listing {
  import opened Wrappers
  import opened Strings
  import opened DnsCodec
  import opened Ldap

  /** The two record kinds the listing shows. */
  datatype Kind = HostA | Alias

  /** The `'type'` text of a row. */
  function Label(k: Kind): string {
    match k
    case HostA => "A (Host)"
    case Alias => "CNAME (Alias)"
  }

  /** One row of the listing: the `{'name', 'type', 'dn'}` dictionary. */
  datatype Row = Row(name: string, kind: Kind, dn: string)

  /** Node names that belong to the zone itself, compared in lower case. */
  const HiddenNames: seq<string> := ["@", "domaindnszones", "forestdnszones"]

  /** The kind as `get_dns_records` reads it: byte 2 of the blob, which is
      only the low byte of the little-endian type field. */
  function BlobKind(raw: seq<byte>): (k: Option<Kind>)
    ensures k == Some(HostA) <==> |raw| > 2 && raw[2] == 1
    ensures k == Some(Alias) <==> |raw| > 2 && raw[2] == 5
  {
    if |raw| > 2 then
      if raw[2] == 1 then Some(HostA)
      else if raw[2] == 5 then Some(Alias)
      else None
    else None
  }

  /** The kind of an entry: that of its first blob; no blob, no kind. */
  function EntryKind(blobs: seq<seq<byte>>): Option<Kind> {
    if blobs == [] then None else BlobKind(blobs[0])
  }

  /** The kind a full type field denotes. */
  function TypeKind(recordType: int): Option<Kind> {
    if recordType == TypeA then Some(HostA)
    else if recordType == TypeCname then Some(Alias)
    else None
  }

  /** A name the listing hides: reserved, or starting with an underscore. */
  predicate Hidden(name: string) {
    Lower(name) in HiddenNames || StartsWith(name, "_")
  }

  /** The row one entry contributes, if any: the stripped name must not be
      hidden, and the first blob must read as A or CNAME. */
  function RowOf(e: Entry): Option<Row> {
    var name := Strip(e.name);
    if Lower(name) in HiddenNames then None
    else if StartsWith(name, "_") then None
    else
      match EntryKind(e.dnsRecord)
      case None => None
      case Some(k) => Some(Row(name, k, e.dn))
  }

  /** An entry is shown exactly when its stripped name is not hidden and its
      first blob reads as A or CNAME; the row carries that name and kind. */
  lemma RowOfIff(e: Entry)
    ensures RowOf(e).Some? <==> !Hidden(Strip(e.name)) && EntryKind(e.dnsRecord).Some?
    ensures RowOf(e).Some? ==>
      RowOf(e).value == Row(Strip(e.name), EntryKind(e.dnsRecord).value, e.dn)
  {
  }

  /** The rows of the entries, in entry order, before sorting. */
  function Surfaced(es: seq<Entry>): seq<Row> {
    if es == [] then []
    else
      var prev := Surfaced(es[..|es| - 1]);
      match RowOf(es[|es| - 1])
      case None => prev
      case Some(r) => prev + [r]
  }

  /** A row is listed exactly when some entry produces it. */
  lemma {:induction false} SurfacedIff(es: seq<Entry>, r: Row)
    ensures r in Surfaced(es) <==> exists e :: e in es && RowOf(e) == Some(r)
  {
    if es != [] {
      var init := es[..|es| - 1];
      SurfacedIff(init, r);
      assert es == init + [es[|es| - 1]];
      if exists e :: e in es && RowOf(e) == Some(r) {
        var e :| e in es && RowOf(e) == Some(r);
        if e != es[|es| - 1] {
          assert e in init;
        }
      }
    }
  }

  /** No listed row has a hidden name, and its name is already stripped
      (its record type is the one `SurfacedIff` describes). */
  lemma SurfacedShown(es: seq<Entry>, r: Row)
    requires r in Surfaced(es)
    ensures !Hidden(r.name) && Strip(r.name) == r.name
  {
    SurfacedIff(es, r);
    var e :| e in es && RowOf(e) == Some(r);
    StripIdempotent(e.name);
  }

  // ---------------------------------------------------------------------------
  // Order: `sorted(records, key=lambda x: x['name'])`

  /** Python's ordering of strings: code point by code point, a proper prefix
      first. */
  predicate NameLe(a: string, b: string)
    decreases |a|
  {
    a == [] || (b != [] && (a[0] < b[0] || (a[0] == b[0] && NameLe(a[1..], b[1..]))))
  }

  lemma {:induction false} NameLeTotal(a: string, b: string)
    ensures NameLe(a, b) || NameLe(b, a)
    decreases |a|
  {
    if a != [] && b != [] && a[0] == b[0] {
      NameLeTotal(a[1..], b[1..]);
    }
  }

  lemma {:induction false} NameLeTrans(a: string, b: string, c: string)
    requires NameLe(a, b) && NameLe(b, c)
    ensures NameLe(a, c)
    decreases |a|
  {
    if a != [] && a[0] == b[0] && b[0] == c[0] {
      NameLeTrans(a[1..], b[1..], c[1..]);
    }
  }

  lemma {:induction false} NameLeAntisym(a: string, b: string)
    requires NameLe(a, b) && NameLe(b, a)
    ensures a == b
    decreases |a|
  {
    if a != [] {
      NameLeAntisym(a[1..], b[1..]);
      assert a == [a[0]] + a[1..] && b == [b[0]] + b[1..];
    }
  }

  predicate SortedByName(rows: seq<Row>) {
    forall i, j :: 0 <= i < j < |rows| ==> NameLe(rows[i].name, rows[j].name)
  }

  /** Places a row before the first row whose name is not smaller, so that
      rows of equal name keep their input order. */
  function InsertRow(r: Row, rows: seq<Row>): (s: seq<Row>)
    ensures multiset(s) == multiset(rows) + multiset{r}
  {
    if rows == [] then [r]
    else if NameLe(r.name, rows[0].name) then [r] + rows
    else
      assert rows == [rows[0]] + rows[1..];
      [rows[0]] + InsertRow(r, rows[1..])
  }

  /** Insertion sort by name; stable, like Python's `sorted`. */
  function SortByName(rows: seq<Row>): (s: seq<Row>)
    ensures multiset(s) == multiset(rows)
  {
    if rows == [] then []
    else
      assert rows == [rows[0]] + rows[1..];
      InsertRow(rows[0], SortByName(rows[1..]))
  }

  /** A row that no row of a sorted list precedes can head it. */
  lemma SortedCons(h: Row, t: seq<Row>)
    requires SortedByName(t)
    requires forall x :: x in t ==> NameLe(h.name, x.name)
    ensures SortedByName([h] + t)
  {
    var s := [h] + t;
    forall i, j | 0 <= i < j < |s| ensures NameLe(s[i].name, s[j].name) {
      if i == 0 {
        assert s[j] == t[j - 1];
      } else {
        assert s[i] == t[i - 1] && s[j] == t[j - 1];
      }
    }
  }

  /** A lower bound of a row and of a list bounds the list with the row in it. */
  lemma InsertRowBounded(r: Row, rows: seq<Row>, lo: string)
    requires NameLe(lo, r.name)
    requires forall x :: x in rows ==> NameLe(lo, x.name)
    ensures forall x :: x in InsertRow(r, rows) ==> NameLe(lo, x.name)
  {
    forall x | x in InsertRow(r, rows) ensures NameLe(lo, x.name) {
      assert x in multiset(InsertRow(r, rows));
      if x != r {
        assert x in multiset(rows);
      }
    }
  }

  lemma {:induction false} InsertRowSorted(r: Row, rows: seq<Row>)
    requires SortedByName(rows)
    ensures SortedByName(InsertRow(r, rows))
  {
    if rows != [] {
      if NameLe(r.name, rows[0].name) {
        forall x | x in rows ensures NameLe(r.name, x.name) {
          var j :| 0 <= j < |rows| && rows[j] == x;
          if j > 0 {
            NameLeTrans(r.name, rows[0].name, rows[j].name);
          }
        }
        SortedCons(r, rows);
      } else {
        NameLeTotal(r.name, rows[0].name);
        assert SortedByName(rows[1..]) by {
          forall i, j | 0 <= i < j < |rows[1..]| ensures NameLe(rows[1..][i].name, rows[1..][j].name) {
            assert rows[1..][i] == rows[i + 1] && rows[1..][j] == rows[j + 1];
          }
        }
        InsertRowSorted(r, rows[1..]);
        forall x | x in rows[1..] ensures NameLe(rows[0].name, x.name) {
          var k :| 0 <= k < |rows[1..]| && rows[1..][k] == x;
          assert rows[k + 1] == x;
        }
        InsertRowBounded(r, rows[1..], rows[0].name);
        SortedCons(rows[0], InsertRow(r, rows[1..]));
      }
    }
  }

  /** The listing comes out in ascending name order. */
  lemma {:induction false} SortByNameSorted(rows: seq<Row>)
    ensures SortedByName(SortByName(rows))
  {
    if rows != [] {
      SortByNameSorted(rows[1..]);
      InsertRowSorted(rows[0], SortByName(rows[1..]));
    }
  }

  /** Rows already in order are left as they are. */
  lemma {:induction false} SortByNameKeepsSorted(rows: seq<Row>)
    requires SortedByName(rows)
    ensures SortByName(rows) == rows
  {
    if rows != [] {
      assert SortedByName(rows[1..]) by {
        forall i, j | 0 <= i < j < |rows[1..]| ensures NameLe(rows[1..][i].name, rows[1..][j].name) {
          assert rows[1..][i] == rows[i + 1] && rows[1..][j] == rows[j + 1];
        }
      }
      SortByNameKeepsSorted(rows[1..]);
      if |rows| > 1 {
        assert NameLe(rows[0].name, rows[1].name);
      }
      assert rows == [rows[0]] + rows[1..];
    }
  }

  /** Sorting twice is sorting once. */
  lemma SortByNameIdempotent(rows: seq<Row>)
    ensures SortByName(SortByName(rows)) == SortByName(rows)
  {
    SortByNameSorted(rows);
    SortByNameKeepsSorted(SortByName(rows));
  }

  // ---------------------------------------------------------------------------
  // The loop of `get_dns_records`

  /** The body of `get_dns_records` after the search: keep the rows of the
      shown entries, in entry order, then sort them by name. */
  method CollectRecords(entries: seq<Entry>) returns (records: seq<Row>)
    ensures records == SortByName(Surfaced(entries))
    ensures SortedByName(records)
    ensures forall r :: r in records <==> exists e :: e in entries && RowOf(e) == Some(r)
  {
    var rows: seq<Row> := [];
    var i := 0;
    while i < |entries|
      invariant 0 <= i <= |entries|
      invariant rows == Surfaced(entries[..i])
    {
      var e := entries[i];
      assert entries[..i + 1][..i] == entries[..i];
      var name := Strip(e.name);
      var lowered := Lower(name);
      if lowered in HiddenNames || StartsWith(name, "_") {
        i := i + 1;
        continue;
      }
      var kind: Option<Kind> := None;
      if e.dnsRecord != [] {
        var raw := e.dnsRecord[0];
        if |raw| > 2 {
          if raw[2] == 1 {
            kind := Some(HostA);
          } else if raw[2] == 5 {
            kind := Some(Alias);
          }
        }
      }
      if kind.None? {
        i := i + 1;
        continue;
      }
      rows := rows + [Row(name, kind.value, e.dn)];
      i := i + 1;
    }
    assert entries[..i] == entries;
    records := SortByName(rows);
    SortByNameSorted(rows);
    forall r ensures r in records <==> exists e :: e in entries && RowOf(e) == Some(r) {
      assert r in records <==> r in multiset(records);
      SurfacedIff(entries, r);
    }
  }

  // ---------------------------------------------------------------------------
  // The classifier against the codec

  /** A record built by `_create_dns_record_bytes` is listed with the kind it
      was built as. */
  lemma BuiltRecordKind(recordType: int, content: string, ttl: int)
    requires RecordBytes(recordType, content, ttl).Ok?
    ensures BlobKind(RecordBytes(recordType, content, ttl).value) == TypeKind(recordType)
  {
    var b := RecordBytes(recordType, content, ttl).value;
    var payload := Payload(recordType, content).value;
    assert b == Header(|payload|, recordType, ttl) + payload;
    assert b[2] == LE16(recordType)[0];
  }

  /** When the high byte of the type field is zero, byte 2 is the whole type
      and the listing agrees with a full reading of the field. */
  lemma LowByteAgrees(raw: seq<byte>)
    requires |raw| >= 4 && raw[3] == 0
    ensures BlobKind(raw) == TypeKind(ReadLE16(raw, 2))
  {
  }

  /** When the high byte is not zero, every kind the listing reports is wrong:
      the full type is neither A nor CNAME. */
  lemma HighByteMisread(raw: seq<byte>)
    requires |raw| >= 4 && raw[3] != 0 && BlobKind(raw).Some?
    ensures TypeKind(ReadLE16(raw, 2)) == None
  {
  }

  /** A CAA record (type 257) is listed as an A record, and type 261 as a
      CNAME. */
  lemma WideTypesMisread(payloadLength: int, ttl: int)
    requires 0 <= payloadLength < 0x1_0000 && 0 <= ttl < 0x1_0000_0000
    ensures BlobKind(Header(payloadLength, 257, ttl)) == Some(HostA)
    ensures BlobKind(Header(payloadLength, 261, ttl)) == Some(Alias)
    ensures TypeKind(257) == None && TypeKind(261) == None
  {
    assert Header(payloadLength, 257, ttl)[2] == LE16(257)[0];
    assert Header(payloadLength, 261, ttl)[2] == LE16(261)[0];
  }
}
