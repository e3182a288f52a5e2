/**
 * validate_email: a purely syntactic check of a contact address, the pattern
 * ^[\w.-]+@[\w.-]+\.\w+$ applied to the stripped string.
 */
module Validator {
  import opened Wrappers
  import opened Text

  /** A character of the class `[\w.-]`. */
  predicate IsAddressChar(c: char) { IsWordChar(c) || c == '.' || c == '-' }

  predicate AllAddressChars(s: string) {
    forall k :: 0 <= k < |s| ==> IsAddressChar(s[k])
  }

  predicate AllWordChars(s: string) {
    forall k :: 0 <= k < |s| ==> IsWordChar(s[k])
  }

  /** The part after the '@': over `[\w.-]`, its last '.' is not its first
      character and is followed by one or more `\w` characters. */
  predicate HasDomainShape(rest: string) {
    var dot := LastIndexOf(rest, '.');
    AllAddressChars(rest) && dot.Some? && 0 < dot.value && dot.value + 1 < |rest| &&
    AllWordChars(rest[dot.value + 1..])
  }

  /** The decision procedure for the pattern on a stripped string: the first
      '@' separates a non-empty local part over `[\w.-]` from a rest of
      domain shape. */
  predicate HasAddressShape(t: string) {
    var at := IndexOf(t, '@');
    at.Some? && 0 < at.value && AllAddressChars(t[..at.value]) && HasDomainShape(t[at.value + 1..])
  }

  /** validate_email. `None` stands for a value that is not a string. */
  predicate ValidateEmail(email: Option<string>) {
    match email
    case None => false
    case Some(s) => Trim(s) != [] && HasAddressShape(Trim(s))
  }

  /** `t` is `local '@' domain '.' tld` exactly as the regular expression
      ^[\w.-]+@[\w.-]+\.\w+$ reads it, with the '@' at `at` and the '.' that
      begins `\.\w+` at `dot`. */
  ghost predicate PatternSplit(t: string, at: nat, dot: nat) {
    0 < at && at + 1 < dot && dot + 1 < |t| && t[at] == '@' && t[dot] == '.' &&
    AllAddressChars(t[..at]) && AllAddressChars(t[at + 1..dot]) && AllWordChars(t[dot + 1..])
  }

  /** Whether the regular expression matches the whole of `t`. */
  ghost predicate MatchesPattern(t: string) {
    exists at: nat, dot: nat :: PatternSplit(t, at, dot)
  }

  lemma ShapeGivesPattern(t: string)
    requires HasAddressShape(t)
    ensures MatchesPattern(t)
  {
    var at := IndexOf(t, '@').value;
    var rest := t[at + 1..];
    var d := LastIndexOf(rest, '.').value;
    var dot := at + 1 + d;
    assert t[at + 1..dot] == rest[..d];
    assert t[dot + 1..] == rest[d + 1..];
    assert PatternSplit(t, at, dot);
  }

  lemma PatternGivesShape(t: string, at: nat, dot: nat)
    requires PatternSplit(t, at, dot)
    ensures HasAddressShape(t)
  {
  }

  /** The decision procedure accepts exactly the strings the pattern matches. */
  lemma AddressShapeIffPattern(t: string)
    ensures HasAddressShape(t) <==> MatchesPattern(t)
  {
    if HasAddressShape(t) {
      ShapeGivesPattern(t);
    }
    if MatchesPattern(t) {
      var at: nat, dot: nat :| PatternSplit(t, at, dot);
      PatternGivesShape(t, at, dot);
    }
  }

  /** validate_email accepts a string exactly when the pattern matches the
      whole of its stripped form. */
  lemma ValidateEmailIffPattern(s: string)
    ensures ValidateEmail(Some(s)) <==> MatchesPattern(Trim(s))
  {
    AddressShapeIffPattern(Trim(s));
  }

  /** A value that is not a string, the empty string and a string of
      whitespace are all invalid. */
  lemma BlankEmailIsInvalid(s: string)
    requires forall k :: 0 <= k < |s| ==> IsSpace(s[k])
    ensures !ValidateEmail(Some(s)) && !ValidateEmail(None)
  {
  }

  lemma OneAtInShape(t: string)
    requires HasAddressShape(t)
    ensures multiset(t)['@'] == 1
  {
    var at := IndexOf(t, '@').value;
    var local, rest := t[..at], t[at + 1..];
    assert t == local + [t[at]] + rest;
    assert HasDomainShape(rest);
    forall k | 0 <= k < |rest| ensures rest[k] != '@' {
      assert IsAddressChar(rest[k]);
    }
    assert multiset(local)['@'] == 0;
    assert multiset(rest)['@'] == 0;
    assert multiset(t) == multiset(local) + multiset([t[at]]) + multiset(rest);
  }

  /** An accepted address holds exactly one '@' once stripped. */
  lemma ValidEmailHasOneAt(s: string)
    requires ValidateEmail(Some(s))
    ensures multiset(Trim(s))['@'] == 1
  {
    OneAtInShape(Trim(s));
  }

  /** `[\w.-]` does not contain '@'. */
  lemma AddressCharsHaveNoAt(s: string)
    requires AllAddressChars(s)
    ensures '@' !in s
  {
    forall k | 0 <= k < |s| ensures s[k] != '@' {
      assert IsAddressChar(s[k]);
    }
  }

  /** An address `local@name.tld` is accepted when the local part and the
      name are non-empty over `[\w.-]` (so neither holds an '@'), the name
      holds no '.', and the top-level part is non-empty over `\w`. */
  lemma AddressAccepted(local: string, name: string, tld: string)
    requires local != [] && AllAddressChars(local)
    requires name != [] && AllAddressChars(name) && '.' !in name
    requires tld != [] && AllWordChars(tld)
    ensures ValidateEmail(Some(local + "@" + name + "." + tld))
  {
    var rest := name + "." + tld;
    var t := local + "@" + rest;
    assert t == local + "@" + name + "." + tld;
    assert t[0] == local[0] && IsAddressChar(local[0]);
    assert t[|t| - 1] == tld[|tld| - 1] && IsWordChar(tld[|tld| - 1]);
    TrimUnchanged(t);
    AddressCharsHaveNoAt(local);
    FirstIndexAfter(local, rest, '@');
    assert t[..|local|] == local;
    assert t[|local| + 1..] == rest;
    DomainAccepted(name, tld);
  }

  /** `name.tld` has the shape of the part after the '@'. */
  lemma DomainAccepted(name: string, tld: string)
    requires name != [] && AllAddressChars(name) && '.' !in name
    requires tld != [] && AllWordChars(tld)
    ensures HasDomainShape(name + "." + tld)
  {
    var rest := name + "." + tld;
    forall k | 0 <= k < |tld| ensures tld[k] != '.' {
      assert IsWordChar(tld[k]);
    }
    LastIndexBetween(name, tld, '.');
    assert rest[|name| + 1..] == tld;
    forall k | 0 <= k < |rest| ensures IsAddressChar(rest[k]) {
      if k > |name| {
        assert rest[k] == tld[k - |name| - 1];
      }
    }
  }

  /** The first `c` of `a + [c] + b` is the one after `a` when `a` has none. */
  lemma FirstIndexAfter(a: string, b: string, c: char)
    requires c !in a
    ensures IndexOf(a + [c] + b, c) == Some(|a|)
  {
    var s := a + [c] + b;
    assert s[|a|] == c;
    var v := IndexOf(s, c).value;
    forall k | 0 <= k < |a| ensures s[k] != c {
      assert s[k] == a[k];
    }
    forall j | 0 <= j < v ensures s[j] != c {
      assert s[..v][j] == s[j];
    }
  }

  /** The last `c` of `a + [c] + b` is the one after `a` when `b` has none. */
  lemma LastIndexBetween(a: string, b: string, c: char)
    requires forall k :: 0 <= k < |b| ==> b[k] != c
    ensures LastIndexOf(a + [c] + b, c) == Some(|a|)
  {
    var s := a + [c] + b;
    assert s[|a|] == c;
    var v := LastIndexOf(s, c).value;
    forall k | |a| < k < |s| ensures s[k] != c {
      assert s[k] == b[k - |a| - 1];
    }
    forall j | v < j < |s| ensures s[j] != c {
      assert s[v + 1..][j - v - 1] == s[j];
    }
  }

  /** The five addresses of the built-in sample that are accepted. */
  lemma SampleAddressesAccepted()
    ensures ValidateEmail(Some("contact@technovaai.com"))
    ensures ValidateEmail(Some("info@greenfarm.com"))
    ensures ValidateEmail(Some("sales.buildmax@gmail.com"))
    ensures ValidateEmail(Some("support@finsolve.io"))
    ensures ValidateEmail(Some("hello@edusmart.org"))
  {
    SampleTechNovaAddress();
    SampleGreenFarmAddress();
    SampleBuildMaxAddress();
    SampleFinSolveAddress();
    SampleEduSmartAddress();
  }

  lemma SampleTechNovaAddress()
    ensures ValidateEmail(Some("contact@technovaai.com"))
  {
    assert "contact" + "@" + "technovaai" + "." + "com" == "contact@technovaai.com";
    AddressAccepted("contact", "technovaai", "com");
  }

  lemma SampleGreenFarmAddress()
    ensures ValidateEmail(Some("info@greenfarm.com"))
  {
    assert "info" + "@" + "greenfarm" + "." + "com" == "info@greenfarm.com";
    AddressAccepted("info", "greenfarm", "com");
  }

  lemma SampleBuildMaxAddress()
    ensures ValidateEmail(Some("sales.buildmax@gmail.com"))
  {
    assert "sales.buildmax" + "@" + "gmail" + "." + "com" == "sales.buildmax@gmail.com";
    AddressAccepted("sales.buildmax", "gmail", "com");
  }

  lemma SampleFinSolveAddress()
    ensures ValidateEmail(Some("support@finsolve.io"))
  {
    assert "support" + "@" + "finsolve" + "." + "io" == "support@finsolve.io";
    AddressAccepted("support", "finsolve", "io");
  }

  lemma SampleEduSmartAddress()
    ensures ValidateEmail(Some("hello@edusmart.org"))
  {
    assert "hello" + "@" + "edusmart" + "." + "org" == "hello@edusmart.org";
    AddressAccepted("hello", "edusmart", "org");
  }

  /** The address of the built-in sample that is rejected: nothing follows the '@'. */
  lemma SampleAddressRejected()
    ensures !ValidateEmail(Some("random_email@"))
  {
    TrailingAtRejected("random_email@");
  }

  /** A string that ends in '@' is rejected: stripping keeps the final '@',
      and then either nothing follows the first '@', or what follows holds
      an '@'. */
  lemma TrailingAtRejected(t: string)
    requires t != [] && t[|t| - 1] == '@'
    ensures !ValidateEmail(Some(t))
  {
    StripKeepsTrailingAt(t);
    TrailingAtHasNoShape(Trim(t));
  }

  lemma StripKeepsTrailingAt(t: string)
    requires t != [] && t[|t| - 1] == '@'
    ensures Trim(t) != [] && Trim(t)[|Trim(t)| - 1] == '@'
  {
    var l := TrimLeft(t);
    assert l != [] && l[|l| - 1] == '@';
    assert TrimRight(l) == l;
  }

  lemma TrailingAtHasNoShape(u: string)
    requires u != [] && u[|u| - 1] == '@'
    ensures !HasAddressShape(u)
  {
    var at := IndexOf(u, '@');
    if at.Some? && at.value + 1 < |u| {
      var rest := u[at.value + 1..];
      assert rest[|rest| - 1] == '@';
      assert !IsAddressChar(rest[|rest| - 1]);
    }
  }
}
