/** The Python `str` and `bytes` operations that the directory code relies on,
    restricted to what it uses: whitespace and character stripping, splitting on
    one character, joining, ASCII case mapping, prefix and substring tests. */
module Strings {

  /** One octet of a Python `bytes` value. */
  newtype byte = b: int | 0 <= b < 256

  // ---------------------------------------------------------------------------
  // Character classes (ASCII; see README for the Unicode cases left out)

  /** `str.isspace()` on the ASCII range: tab through carriage return, the four
      information separators 0x1C-0x1F, and the space. */
  predicate IsSpace(c: char) {
    (9 <= c as int <= 13) || (28 <= c as int <= 32)
  }

  predicate IsAsciiChar(c: char) { c as int < 128 }

  predicate IsAsciiLetter(c: char) { ('a' <= c <= 'z') || ('A' <= c <= 'Z') }

  predicate IsAsciiDigit(c: char) { '0' <= c <= '9' }

  predicate IsAsciiAlnum(c: char) { IsAsciiLetter(c) || IsAsciiDigit(c) }

  predicate IsAscii(s: string) { forall i :: 0 <= i < |s| ==> IsAsciiChar(s[i]) }

  /** `str.isalnum()`: true of a non-empty string of letters and digits only. */
  predicate IsAlnum(s: string) {
    |s| > 0 && forall i :: 0 <= i < |s| ==> IsAsciiAlnum(s[i])
  }

  function LowerChar(c: char): char {
    if 'A' <= c <= 'Z' then (c as int + 32) as char else c
  }

  function UpperChar(c: char): char {
    if 'a' <= c <= 'z' then (c as int - 32) as char else c
  }

  /** `str.lower()` */
  function Lower(s: string): (r: string)
    ensures |r| == |s|
    ensures forall i :: 0 <= i < |s| ==> r[i] == LowerChar(s[i])
  {
    if s == [] then [] else [LowerChar(s[0])] + Lower(s[1..])
  }

  /** `str.upper()` */
  function Upper(s: string): (r: string)
    ensures |r| == |s|
    ensures forall i :: 0 <= i < |s| ==> r[i] == UpperChar(s[i])
  {
    if s == [] then [] else [UpperChar(s[0])] + Upper(s[1..])
  }

  // ---------------------------------------------------------------------------
  // Stripping

  /** Drops the leading whitespace. */
  function TrimStart(s: string): string {
    if s != [] && IsSpace(s[0]) then TrimStart(s[1..]) else s
  }

  /** Drops the trailing whitespace. */
  function TrimEnd(s: string): string {
    if s != [] && IsSpace(s[|s| - 1]) then TrimEnd(s[..|s| - 1]) else s
  }

  /** Drops the leading copies of `c`. */
  function TrimStartChar(s: string, c: char): string {
    if s != [] && s[0] == c then TrimStartChar(s[1..], c) else s
  }

  /** Drops the trailing copies of `c`. */
  function TrimEndChar(s: string, c: char): string {
    if s != [] && s[|s| - 1] == c then TrimEndChar(s[..|s| - 1], c) else s
  }

  /** `str.strip()` */
  function Strip(s: string): string {
    TrimEnd(TrimStart(s))
  }

  /** `str.strip(c)` for a one-character argument. */
  function StripChar(s: string, c: char): string {
    TrimEndChar(TrimStartChar(s, c), c)
  }

  /** Trimming the start leaves a suffix of the string that does not start
      with whitespace, and everything dropped was whitespace. */
  lemma {:induction false} TrimStartShape(s: string)
    ensures var r := TrimStart(s);
      |r| <= |s| && r == s[|s| - |r|..] && (r == [] || !IsSpace(r[0])) &&
      forall i :: 0 <= i < |s| - |r| ==> IsSpace(s[i])
  {
    if s != [] && IsSpace(s[0]) {
      var r := TrimStart(s[1..]);
      TrimStartShape(s[1..]);
      assert s[1..][|s| - 1 - |r|..] == s[|s| - |r|..];
      forall i | 0 < i < |s| - |r| ensures IsSpace(s[i]) {
        assert s[i] == s[1..][i - 1];
      }
    }
  }

  /** Trimming the end leaves a prefix of the string that does not end with
      whitespace, and everything dropped was whitespace. */
  lemma {:induction false} TrimEndShape(s: string)
    ensures var r := TrimEnd(s);
      |r| <= |s| && r == s[..|r|] && (r == [] || !IsSpace(r[|r| - 1])) &&
      forall i :: |r| <= i < |s| ==> IsSpace(s[i])
  {
    if s != [] && IsSpace(s[|s| - 1]) {
      var r := TrimEnd(s[..|s| - 1]);
      TrimEndShape(s[..|s| - 1]);
      assert s[..|s| - 1][..|r|] == s[..|r|];
      forall i | |r| <= i < |s| - 1 ensures IsSpace(s[i]) {
        assert s[i] == s[..|s| - 1][i];
      }
    }
  }

  /** `r` is `s[a..b]`, and everything of `s` outside that slice is whitespace. */
  predicate TrimmedSlice(s: string, r: string, a: int, b: int) {
    0 <= a <= b <= |s| && r == s[a..b] &&
    (forall i :: 0 <= i < a ==> IsSpace(s[i])) &&
    (forall i :: b <= i < |s| ==> IsSpace(s[i]))
  }

  /** A prefix `r` of a suffix `t` of `s` is a slice of `s`; whitespace dropped
      on either side stays outside it. */
  lemma PrefixOfSuffix(s: string, t: string, r: string)
    requires |t| <= |s| && t == s[|s| - |t|..]
    requires forall i :: 0 <= i < |s| - |t| ==> IsSpace(s[i])
    requires |r| <= |t| && r == t[..|r|]
    requires forall i :: |r| <= i < |t| ==> IsSpace(t[i])
    ensures TrimmedSlice(s, r, |s| - |t|, |s| - |t| + |r|)
  {
    var a := |s| - |t|;
    assert r == s[a..a + |r|];
    forall i | a + |r| <= i < |s| ensures IsSpace(s[i]) {
      assert s[i] == t[i - a];
    }
  }

  /** The slice `Strip` keeps starts where `TrimStart` stopped. */
  lemma StripSlice(s: string)
    ensures var a := |s| - |TrimStart(s)|;
      TrimmedSlice(s, Strip(s), a, a + |Strip(s)|)
  {
    TrimStartShape(s);
    TrimEndShape(TrimStart(s));
    PrefixOfSuffix(s, TrimStart(s), Strip(s));
  }

  /** The strip of a string is a slice of it, with no whitespace at either end,
      and only whitespace outside it. */
  lemma StripShape(s: string)
    ensures var r := Strip(s);
      (exists a, b :: TrimmedSlice(s, r, a, b)) &&
      (r == [] || (!IsSpace(r[0]) && !IsSpace(r[|r| - 1])))
  {
    var t := TrimStart(s);
    var r := TrimEnd(t);
    TrimStartShape(s);
    TrimEndShape(t);
    StripSlice(s);
    var a := |s| - |t|;
    assert TrimmedSlice(s, Strip(s), a, a + |Strip(s)|);
    if r != [] {
      assert r[0] == t[0];
    }
  }

  /** A string with no leading or trailing whitespace is its own strip. */
  lemma StripNoop(s: string)
    requires s == [] || (!IsSpace(s[0]) && !IsSpace(s[|s| - 1]))
    ensures Strip(s) == s
  {
  }

  /** Stripping twice is stripping once. */
  lemma StripIdempotent(s: string)
    ensures Strip(Strip(s)) == Strip(s)
  {
    StripShape(s);
    StripNoop(Strip(s));
  }

  /** Stripping keeps only characters of the original string. */
  lemma StripKeeps(s: string, x: char)
    requires x in Strip(s)
    ensures x in s
  {
    StripShape(s);
    var a, b :| TrimmedSlice(s, Strip(s), a, b);
    var k :| 0 <= k < |s[a..b]| && s[a..b][k] == x;
    assert s[a + k] == x;
  }

  // ---------------------------------------------------------------------------
  // Prefixes, substrings, replacement

  predicate StartsWith(s: string, prefix: string) {
    |prefix| <= |s| && s[..|prefix|] == prefix
  }

  predicate OccursAt(s: string, sub: string, i: int) {
    0 <= i && i + |sub| <= |s| && s[i..i + |sub|] == sub
  }

  /** `s.find(sub)`: the first index where `sub` occurs, or -1. */
  function Find(s: string, sub: string): (r: int)
    ensures -1 <= r <= |s|
    ensures r == -1 <==> forall i :: 0 <= i <= |s| ==> !OccursAt(s, sub, i)
    ensures r >= 0 ==> OccursAt(s, sub, r) && forall i :: 0 <= i < r ==> !OccursAt(s, sub, i)
    decreases |s|
  {
    if |s| < |sub| then -1
    else if s[..|sub|] == sub then assert OccursAt(s, sub, 0); 0
    else
      var k := Find(s[1..], sub);
      assert !OccursAt(s, sub, 0);
      assert forall i :: 1 <= i <= |s| ==> (OccursAt(s, sub, i) <==> OccursAt(s[1..], sub, i - 1));
      if k < 0 then -1 else assert OccursAt(s, sub, k + 1); k + 1
  }

  /** The first occurrence of a character is right after a prefix free of it. */
  lemma FindFirst(w: string, c: char, rest: string)
    requires c !in w
    ensures Find(w + [c] + rest, [c]) == |w|
  {
    var s := w + [c] + rest;
    assert s[|w|..|w| + 1] == [c];
    assert OccursAt(s, [c], |w|);
    forall i | 0 <= i < |w| ensures !OccursAt(s, [c], i) {
      assert s[i..i + 1] == [w[i]] && w[i] in w;
    }
  }

  /** `sub in s` */
  predicate Contains(s: string, sub: string) {
    Find(s, sub) >= 0
  }

  /** Looking for a one-character string is looking for the character. */
  lemma ContainsChar(s: string, c: char)
    ensures Contains(s, [c]) <==> c in s
  {
    if c in s {
      var i :| 0 <= i < |s| && s[i] == c;
      assert OccursAt(s, [c], i);
    }
    if Contains(s, [c]) {
      var k := Find(s, [c]);
      assert s[k..k + 1] == [c];
      assert s[k] == c;
    }
  }

  /** `s.replace(c, '')` for a one-character `c`. */
  function RemoveChar(s: string, c: char): (r: string)
    ensures c !in r
    ensures forall x :: x in r <==> x in s && x != c
  {
    if s == [] then []
    else if s[0] == c then RemoveChar(s[1..], c)
    else [s[0]] + RemoveChar(s[1..], c)
  }

  // ---------------------------------------------------------------------------
  // Splitting and joining

  /** `s.split(c)` for a one-character separator: the pieces between
      occurrences of `c`, always at least one. */
  function Split(s: string, c: char): (parts: seq<string>)
    ensures |parts| >= 1
    ensures forall i :: 0 <= i < |parts| ==> c !in parts[i]
  {
    if s == [] then [[]]
    else
      var rest := Split(s[1..], c);
      if s[0] == c then [[]] + rest
      else [[s[0]] + rest[0]] + rest[1..]
  }

  /** `sep.join(parts)` */
  function Join(parts: seq<string>, sep: string): string {
    if parts == [] then []
    else if |parts| == 1 then parts[0]
    else parts[0] + sep + Join(parts[1..], sep)
  }

  /** A string holding the separator splits into at least two pieces. */
  lemma {:induction false} SplitAtSeparator(s: string, c: char)
    requires c in s
    ensures |Split(s, c)| >= 2
  {
    if s[0] != c {
      assert c in s[1..];
      SplitAtSeparator(s[1..], c);
    }
  }

  /** Joining the pieces of a split with the separator gives back the string. */
  lemma {:induction false} JoinSplit(s: string, c: char)
    ensures Join(Split(s, c), [c]) == s
  {
    if s != [] {
      JoinSplit(s[1..], c);
      var rest := Split(s[1..], c);
      if s[0] == c {
        assert Split(s, c) == [[]] + rest;
      } else {
        var parts := Split(s, c);
        assert parts == [[s[0]] + rest[0]] + rest[1..];
        if |rest| == 1 {
          assert Join(parts, [c]) == [s[0]] + rest[0];
        } else {
          assert rest == [rest[0]] + rest[1..];
          assert Join(rest, [c]) == rest[0] + [c] + Join(rest[1..], [c]);
          assert Join(parts, [c]) == [s[0]] + rest[0] + [c] + Join(rest[1..], [c]);
        }
      }
    }
  }

  /** Splitting a join of separator-free pieces gives back the pieces. */
  lemma {:induction false} SplitJoin(parts: seq<string>, c: char)
    requires |parts| >= 1
    requires forall i :: 0 <= i < |parts| ==> c !in parts[i]
    ensures Split(Join(parts, [c]), c) == parts
  {
    if |parts| == 1 {
      SplitFree(parts[0], c);
    } else {
      var tail := parts[1..];
      SplitJoin(tail, c);
      var t := [c] + Join(tail, [c]);
      assert Join(parts, [c]) == parts[0] + t;
      SplitAfterSep(Join(tail, [c]), c);
      SplitPrefix(parts[0], t, c);
      assert Split(t, c)[0] == [] && Split(t, c)[1..] == tail;
      assert parts[0] + [] == parts[0];
      assert parts == [parts[0]] + tail;
    }
  }

  /** A string without the separator splits into itself. */
  lemma {:induction false} SplitFree(s: string, c: char)
    requires c !in s
    ensures Split(s, c) == [s]
  {
    if s != [] {
      assert s[0] != c && c !in s[1..];
      SplitFree(s[1..], c);
      assert s == [s[0]] + s[1..];
    }
  }

  lemma SplitAfterSep(t: string, c: char)
    ensures Split([c] + t, c) == [[]] + Split(t, c)
  {
    assert ([c] + t)[1..] == t;
  }

  /** A separator-free prefix is glued onto the first piece. */
  /** Two separator-free pieces around one separator split back into them. */
  lemma SplitAround(w: string, l: string, c: char)
    requires c !in w && c !in l
    ensures Split(w + [c] + l, c) == [w, l]
  {
    assert w + [c] + l == w + ([c] + l);
    SplitAfterSep(l, c);
    SplitFree(l, c);
    SplitPrefix(w, [c] + l, c);
    var u := Split([c] + l, c);
    assert u == [[], l];
    assert w + u[0] == w;
  }

  lemma {:induction false} SplitPrefix(w: string, t: string, c: char)
    requires c !in w
    requires |t| > 0 && t[0] == c
    ensures Split(w + t, c) == [w + Split(t, c)[0]] + Split(t, c)[1..]
  {
    if w == [] {
      assert w + t == t;
      assert Split(t, c)[0] == [];
      assert Split(t, c) == [Split(t, c)[0]] + Split(t, c)[1..];
    } else {
      SplitPrefix(w[1..], t, c);
      assert (w + t)[0] == w[0] && w[0] != c;
      assert (w + t)[1..] == w[1..] + t;
      var rest := Split(w[1..] + t, c);
      assert Split(w + t, c) == [[w[0]] + rest[0]] + rest[1..];
      assert rest[0] == w[1..] + Split(t, c)[0];
      assert rest[1..] == Split(t, c)[1..];
      assert [w[0]] + (w[1..] + Split(t, c)[0]) == w + Split(t, c)[0];
    }
  }
}
