/**
  The three regular expressions of the form code, each stated as the set of strings it
  accepts: the anchored email pattern of EmailField, the unanchored http(s) pattern of
  UrlField, and the anchored `\d{3}-\d{3}-\d{4}` telephone pattern of the telephone builder.
 */
module Patterns {
  import opened Js

  /** The pieces of `s` between occurrences of `sep` (always at least one piece). */
  function Split(s: string, sep: char): (parts: seq<string>)
    ensures |parts| >= 1
  {
    if s == [] then [""]
    else
      var rest := Split(s[1..], sep);
      if s[0] == sep then [""] + rest else [[s[0]] + rest[0]] + rest[1..]
  }

  predicate IsAsciiLetter(c: char) {
    'a' <= c <= 'z' || 'A' <= c <= 'Z'
  }

  /** A character of the class `[^<>()[\]\\.,;:\s@"]`. */
  predicate IsAtomChar(c: char) {
    c !in "<>()[]\\.,;:@\"" && !IsSpace(c)
  }

  /** A character of the class `[a-zA-Z\-0-9]`. */
  predicate IsLabelChar(c: char) {
    IsAsciiLetter(c) || IsDigit(c) || c == '-'
  }

  /** The regular expression `.` without the `s` flag: anything but a line terminator. */
  predicate IsDotChar(c: char) {
    var n := c as int;
    n != 0x0A && n != 0x0D && n != 0x2028 && n != 0x2029
  }

  predicate AllAtomChars(p: string) {
    forall i :: 0 <= i < |p| ==> IsAtomChar(p[i])
  }

  predicate AllLabelChars(p: string) {
    forall i :: 0 <= i < |p| ==> IsLabelChar(p[i])
  }

  predicate AllLetters(p: string) {
    forall i :: 0 <= i < |p| ==> IsAsciiLetter(p[i])
  }

  /** `[^…]+(\.[^…]+)*`: dot-separated, non-empty runs of atom characters. */
  predicate IsDotAtom(l: string) {
    var parts := Split(l, '.');
    forall k :: 0 <= k < |parts| ==> parts[k] != "" && AllAtomChars(parts[k])
  }

  /** `".+"`: a double-quoted, non-empty run of non-line-terminators. */
  predicate IsQuoted(l: string) {
    |l| >= 3 && l[0] == '"' && l[|l| - 1] == '"' &&
    forall i :: 1 <= i < |l| - 1 ==> IsDotChar(l[i])
  }

  predicate IsLocalPart(l: string) {
    IsDotAtom(l) || IsQuoted(l)
  }

  /** `\[[0-9]{1,3}\.[0-9]{1,3}\.[0-9]{1,3}\.[0-9]{1,3}\]` */
  predicate IsBracketedIpv4(d: string) {
    |d| >= 2 && d[0] == '[' && d[|d| - 1] == ']' &&
    var parts := Split(d[1..|d| - 1], '.');
    |parts| == 4 &&
    forall k :: 0 <= k < 4 ==> 1 <= |parts[k]| <= 3 && AllDigits(parts[k])
  }

  /** `([a-zA-Z\-0-9]+\.)+[a-zA-Z]{2,}`: labels ending in a top-level domain of two or more letters. */
  predicate IsHostName(d: string) {
    var parts := Split(d, '.');
    |parts| >= 2 &&
    (forall k :: 0 <= k < |parts| - 1 ==> parts[k] != "" && AllLabelChars(parts[k])) &&
    |parts[|parts| - 1]| >= 2 && AllLetters(parts[|parts| - 1])
  }

  predicate IsDomain(d: string) {
    IsBracketedIpv4(d) || IsHostName(d)
  }

  /** The anchored email pattern: a local part, `@`, and a domain. */
  predicate IsEmailAddress(s: string) {
    exists i :: 0 <= i < |s| && s[i] == '@' && IsLocalPart(s[..i]) && IsDomain(s[i + 1..])
  }

  /** `scheme` occurs at position `i` of `s` and is followed by a non-white-space character. */
  predicate SchemeAt(s: string, i: int, scheme: string) {
    0 <= i && i + |scheme| < |s| && s[i..i + |scheme|] == scheme && !IsSpace(s[i + |scheme|])
  }

  /**
    The unanchored url pattern. Its groups after `://` are optional except `(\S+)`, so a
    match exists exactly where `http://` or `https://` is followed by one non-space character.
   */
  predicate HasHttpUrl(s: string) {
    exists i :: 0 <= i < |s| && (SchemeAt(s, i, "http://") || SchemeAt(s, i, "https://"))
  }

  /** The anchored telephone pattern `^\d{3}-\d{3}-\d{4}$`. */
  predicate IsTelephone(s: string) {
    |s| == 12 && s[3] == '-' && s[7] == '-' &&
    forall i :: 0 <= i < 12 && i != 3 && i != 7 ==> IsDigit(s[i])
  }

  /** Any three digits, a dash, three digits, a dash and four digits form a telephone number. */
  lemma TelephoneFromGroups(a: string, b: string, c: string)
    requires |a| == 3 && |b| == 3 && |c| == 4
    requires AllDigits(a) && AllDigits(b) && AllDigits(c)
    ensures IsTelephone(a + "-" + b + "-" + c)
  {
    var s := a + "-" + b + "-" + c;
    forall i | 0 <= i < 12 && i != 3 && i != 7
      ensures IsDigit(s[i])
    {
      if i < 3 { assert s[i] == a[i]; }
      else if i < 7 { assert s[i] == b[i - 4]; }
      else { assert s[i] == c[i - 8]; }
    }
  }

  /** Every telephone number is three digits, a dash, three digits, a dash and four digits. */
  lemma TelephoneGroups(s: string)
    requires IsTelephone(s)
    ensures s == s[..3] + "-" + s[4..7] + "-" + s[8..]
    ensures AllDigits(s[..3]) && AllDigits(s[4..7]) && AllDigits(s[8..]) && |s[8..]| == 4
  {
    assert AllDigits(s[4..7]) by {
      forall i | 0 <= i < 3 ensures IsDigit(s[4..7][i]) { assert s[4..7][i] == s[i + 4]; }
    }
    assert AllDigits(s[8..]) by {
      forall i | 0 <= i < 4 ensures IsDigit(s[8..][i]) { assert s[8..][i] == s[i + 8]; }
    }
  }

  /** A string without the separator is a single piece. */
  lemma {:induction false} SplitWhole(s: string, sep: char)
    requires sep !in s
    ensures Split(s, sep) == [s]
  {
    if s != [] {
      assert sep !in s[1..];
      SplitWhole(s[1..], sep);
      assert s[0] != sep;
      assert [s[0]] + s[1..] == s;
    }
  }

  /** Splitting `a`, the separator and `b`: `a` is the first piece, `b`'s pieces follow. */
  lemma {:induction false} SplitAfter(a: string, sep: char, b: string)
    requires sep !in a
    ensures Split(a + [sep] + b, sep) == [a] + Split(b, sep)
  {
    if a == [] {
      assert a + [sep] + b == [sep] + b;
      assert ([sep] + b)[1..] == b;
    } else {
      assert (a + [sep] + b)[1..] == a[1..] + [sep] + b;
      assert sep !in a[1..];
      SplitAfter(a[1..], sep, b);
      assert [a[0]] + a[1..] == a;
    }
  }

  /** "a@b.com" is an email address. */
  lemma EmailAccepted()
    ensures IsEmailAddress("a@b.com")
  {
    var s := "a@b.com";
    assert s[..1] == "a" && s[2..] == "b.com";
    LocalPartA();
    DomainBCom();
    assert s[1] == '@';
  }

  /** "a" is a local part: one atom of one atom character. */
  lemma LocalPartA()
    ensures IsLocalPart("a")
  {
    SplitWhole("a", '.');
    assert IsAtomChar('a');
    assert AllAtomChars("a");
  }

  /** "b.com" is a domain: the label "b" and the top-level label "com". */
  lemma DomainBCom()
    ensures IsDomain("b.com")
  {
    assert "b.com" == "b" + ['.'] + "com";
    SplitAfter("b", '.', "com");
    SplitWhole("com", '.');
    assert Split("b.com", '.') == ["b", "com"];
    assert AllLabelChars("b");
    assert AllLetters("com");
  }

  /** "not-an-email" has no "@", so it is not an email address. */
  lemma EmailRejected()
    ensures !IsEmailAddress("not-an-email")
  {
    var t := "not-an-email";
    forall i | 0 <= i < |t| ensures t[i] != '@' { }
  }
}
