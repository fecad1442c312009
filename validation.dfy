/** The account-name check run by `create_dns_record`, `create_ad_user` and
    `create_computer` before any connection is opened: the name is filter-escaped,
    its dashes are removed, and what is left must be non-empty and alphanumeric. */
module Validation {
  import opened Strings

  /** The characters that LDAP filter escaping rewrites. */
  predicate IsFilterMeta(c: char) {
    c == '\\' || c == '*' || c == '(' || c == ')' || c == 0 as char
  }

  /** Filter escaping of a single character: metacharacters become a backslash
      and two hex digits, everything else is kept. */
  function EscapeChar(c: char): string {
    if c == '\\' then "\\5c"
    else if c == '*' then "\\2a"
    else if c == '(' then "\\28"
    else if c == ')' then "\\29"
    else if c == 0 as char then "\\00"
    else [c]
  }

  /** `escape_filter_chars(text)`: the five successive `replace` calls amount to
      rewriting each character on its own, since only the first rewrites `\`. */
  function EscapeFilterChars(s: string): string {
    if s == [] then [] else EscapeChar(s[0]) + EscapeFilterChars(s[1..])
  }

  /** `safe_name.replace('-', '').isalnum()` with `safe_name = escape_filter_chars(name)`. */
  predicate ValidName(name: string) {
    IsAlnum(RemoveChar(EscapeFilterChars(name), '-'))
  }

  /** The characters an accepted name may contain. */
  predicate NameChar(c: char) { IsAsciiAlnum(c) || c == '-' }

  /** Escaping leaves a metacharacter-free string unchanged. */
  lemma {:induction false} EscapeIdentity(s: string)
    requires forall c :: c in s ==> !IsFilterMeta(c)
    ensures EscapeFilterChars(s) == s
  {
    if s != [] {
      assert s[0] in s;
      assert forall c :: c in s[1..] ==> c in s;
      EscapeIdentity(s[1..]);
      assert s == [s[0]] + s[1..];
    }
  }

  /** Escaping a string that holds a metacharacter leaves a backslash in it. */
  lemma {:induction false} EscapeLeavesBackslash(s: string)
    requires exists c :: c in s && IsFilterMeta(c)
    ensures '\\' in EscapeFilterChars(s)
  {
    if IsFilterMeta(s[0]) {
      assert EscapeChar(s[0])[0] == '\\';
      assert EscapeFilterChars(s)[0] == '\\';
    } else {
      var c :| c in s && IsFilterMeta(c);
      assert c in s[1..];
      EscapeLeavesBackslash(s[1..]);
      var rest := EscapeFilterChars(s[1..]);
      var k :| 0 <= k < |rest| && rest[k] == '\\';
      assert EscapeFilterChars(s)[|EscapeChar(s[0])| + k] == '\\';
    }
  }

  /** A name is accepted exactly when it consists of ASCII letters, digits and
      dashes and is not made of dashes alone. */
  lemma ValidNameIff(name: string)
    ensures ValidName(name) <==>
      (forall c :: c in name ==> NameChar(c)) && (exists c :: c in name && c != '-')
  {
    var kept := RemoveChar(EscapeFilterChars(name), '-');
    if exists c :: c in name && IsFilterMeta(c) {
      EscapeLeavesBackslash(name);
      assert '\\' in kept;
      var k :| 0 <= k < |kept| && kept[k] == '\\';
      assert !ValidName(name);
      var c :| c in name && IsFilterMeta(c);
      assert !NameChar(c);
    } else {
      EscapeIdentity(name);
      assert kept == RemoveChar(name, '-');
      if ValidName(name) {
        assert kept[0] in name && kept[0] != '-';
        forall c | c in name ensures NameChar(c) {
          if c != '-' {
            assert c in kept;
            var k :| 0 <= k < |kept| && kept[k] == c;
          }
        }
      }
      if (forall c :: c in name ==> NameChar(c)) && (exists c :: c in name && c != '-') {
        var c :| c in name && c != '-';
        assert c in kept;
        forall i | 0 <= i < |kept| ensures IsAsciiAlnum(kept[i]) {
          assert kept[i] in name;
        }
      }
    }
  }

  /** An accepted name holds no whitespace, so stripping it changes nothing. */
  lemma ValidNameIsStripped(name: string)
    requires ValidName(name)
    ensures Strip(name) == name
  {
    ValidNameIff(name);
    if name != [] {
      assert name[0] in name && name[|name| - 1] in name;
    }
    StripNoop(name);
  }

  /** An accepted name cannot break out of a DN or a filter: it holds none of
      `,`, `=`, `+`, `@`, `.` or a filter metacharacter. */
  lemma ValidNameIsInert(name: string)
    requires ValidName(name)
    ensures ',' !in name && '=' !in name && '+' !in name && '@' !in name && '.' !in name
    ensures forall c :: c in name ==> !IsFilterMeta(c)
  {
    ValidNameIff(name);
  }

  lemma UpperCharKeepsClass(c: char)
    ensures NameChar(UpperChar(c)) == NameChar(c)
    ensures (UpperChar(c) == '-') == (c == '-')
  {
  }

  /** Upper-casing a name neither makes it acceptable nor unacceptable. */
  lemma ValidNameUpper(name: string)
    ensures ValidName(Upper(name)) <==> ValidName(name)
  {
    var u := Upper(name);
    ValidNameIff(name);
    ValidNameIff(u);
    if ValidName(name) {
      forall c | c in u ensures NameChar(c) {
        var i :| 0 <= i < |u| && u[i] == c;
        assert name[i] in name;
        UpperCharKeepsClass(name[i]);
      }
      var c :| c in name && c != '-';
      var i :| 0 <= i < |name| && name[i] == c;
      UpperCharKeepsClass(c);
      assert u[i] in u;
    }
    if ValidName(u) {
      forall c | c in name ensures NameChar(c) {
        var i :| 0 <= i < |name| && name[i] == c;
        assert u[i] in u;
        UpperCharKeepsClass(c);
      }
      var c :| c in u && c != '-';
      var i :| 0 <= i < |u| && u[i] == c;
      UpperCharKeepsClass(name[i]);
      assert name[i] in name;
    }
  }

  /** A name holding any character other than an ASCII letter, digit or dash
      (a space, `!`, a filter metacharacter, a comma) is rejected. */
  lemma RejectsForeignChar(name: string, c: char)
    requires c in name && !NameChar(c)
    ensures !ValidName(name)
  {
    ValidNameIff(name);
  }

  /** A name made of dashes only, the empty name included, is rejected. */
  lemma RejectsDashesOnly(name: string)
    requires forall c :: c in name ==> c == '-'
    ensures !ValidName(name)
  {
    ValidNameIff(name);
  }
}
