/**
  The e-mail address check of the validator (`isValidEmail`): a regular-expression
  shape test followed by rules about dots in the two halves of the address.
*/
module Email {
  import opened JsStrings

  /** A character of the regular-expression class `[^\s@]`. */
  predicate PatternChar(c: char)
  {
    !IsWs(c) && c != '@'
  }

  /** `[^\s@]+`: a non-empty run of pattern characters. */
  predicate PatternRun(t: string)
  {
    |t| > 0 && forall k | 0 <= k < |t| :: PatternChar(t[k])
  }

  /** `[^\s@]+\.[^\s@]+` matching all of `d`, for some choice of the dot. */
  predicate DomainPattern(d: string)
  {
    exists dot | 0 <= dot < |d| :: d[dot] == '.' && PatternRun(d[..dot]) && PatternRun(d[dot + 1..])
  }

  /**
    `/^[^\s@]+@[^\s@]+\.[^\s@]+$/.test(s)`: `s` is a run of pattern characters, an
    `@`, and a run, a dot and a run, for some choice of where the `@` stands.
  */
  predicate MatchesEmailPattern(s: string)
  {
    exists at | 0 <= at < |s| :: s[at] == '@' && PatternRun(s[..at]) && DomainPattern(s[at + 1..])
  }

  /** The domain has a dot with at least one character on each side of it. */
  predicate HasInnerDot(d: string)
  {
    exists dot | 0 < dot < |d| - 1 :: d[dot] == '.'
  }

  /**
    `isValidEmail(email)`: the pattern test, then `email.split('@')` into the local and
    the domain part, neither of which may contain `..` or start or end with a dot.
  */
  predicate IsValidEmail(email: string)
  {
    MatchesEmailPattern(email) &&
    (PatternHasOneAt(email);
     var parts := Split(email, '@');
     var localPart, domainPart := parts[0], parts[1];
     && !HasDoubleDot(localPart)
     && !HasEdgeDot(localPart)
     && !HasDoubleDot(domainPart)
     && !HasEdgeDot(domainPart))
  }

  /** What the two halves of an accepted address satisfy. */
  predicate PartRules(localPart: string, domainPart: string)
  {
    && localPart != ""
    && domainPart != ""
    && HasInnerDot(domainPart)
    && !HasDoubleDot(localPart) && !HasDoubleDot(domainPart)
    && !HasEdgeDot(localPart) && !HasEdgeDot(domainPart)
  }

  /**
    The rules an accepted address obeys, stated without the regular expression:
    exactly one `@`, no whitespace, and the halves around that `@` obey `PartRules`.
  */
  predicate EmailRules(s: string)
  {
    && Count(s, '@') == 1
    && !HasWs(s)
    && exists at | 0 <= at < |s| :: s[at] == '@' && PartRules(s[..at], s[at + 1..])
  }

  /** The `@` at index `at` splits the count of `@`s of `s` into its two sides. */
  lemma CountAround(s: string, at: nat)
    requires at < |s| && s[at] == '@'
    ensures Count(s, '@') == Count(s[..at], '@') + 1 + Count(s[at + 1..], '@')
  {
    assert s == s[..at] + [s[at]] + s[at + 1..];
    CountAppend(s[..at] + [s[at]], s[at + 1..], '@');
    CountAppend(s[..at], [s[at]], '@');
  }

  /** A run of pattern characters is non-empty and free of `@` and whitespace. */
  lemma PatternRunFacts(t: string)
    requires PatternRun(t)
    ensures t != "" && Count(t, '@') == 0 && !HasWs(t)
  {
  }

  /** A non-empty string free of `@` and whitespace is a run of pattern characters. */
  lemma PatternRunFrom(t: string)
    requires t != "" && Count(t, '@') == 0 && !HasWs(t)
    ensures PatternRun(t)
  {
    forall k | 0 <= k < |t| ensures PatternChar(t[k]) {
      assert t[k] in t;
    }
  }

  /** A string that passes the pattern test contains exactly one `@`. */
  lemma PatternHasOneAt(s: string)
    requires MatchesEmailPattern(s)
    ensures Count(s, '@') == 1
  {
    var at :| 0 <= at < |s| && s[at] == '@' && PatternRun(s[..at]) && DomainPattern(s[at + 1..]);
    PatternSides(s, at);
  }

  /** Everything the pattern test says about the string around its `@`. */
  lemma PatternSides(s: string, at: nat)
    requires at < |s| && s[at] == '@' && PatternRun(s[..at]) && DomainPattern(s[at + 1..])
    ensures Count(s, '@') == 1 && !HasWs(s)
    ensures s[..at] != "" && HasInnerDot(s[at + 1..])
  {
    var d := s[at + 1..];
    var dot :| 0 <= dot < |d| && d[dot] == '.' && PatternRun(d[..dot]) && PatternRun(d[dot + 1..]);
    DomainSides(d, dot);
    PatternRunFacts(s[..at]);
    CountAround(s, at);
    NoWsAround(s, at);
  }

  /** A domain matched around the dot at `dot` has no `@`, no whitespace and an inner dot. */
  lemma DomainSides(d: string, dot: nat)
    requires dot < |d| && d[dot] == '.' && PatternRun(d[..dot]) && PatternRun(d[dot + 1..])
    ensures Count(d, '@') == 0 && !HasWs(d) && HasInnerDot(d)
  {
    PatternRunFacts(d[..dot]);
    PatternRunFacts(d[dot + 1..]);
    CountAround'(d, dot);
    NoWsAround(d, dot);
  }

  /** Like `CountAround`, for a character at `i` that is not an `@`. */
  lemma CountAround'(s: string, i: nat)
    requires i < |s| && s[i] != '@'
    ensures Count(s, '@') == Count(s[..i], '@') + Count(s[i + 1..], '@')
  {
    assert s == s[..i] + [s[i]] + s[i + 1..];
    CountAppend(s[..i] + [s[i]], s[i + 1..], '@');
    CountAppend(s[..i], [s[i]], '@');
  }

  /** No whitespace on either side of a non-whitespace character means none at all. */
  lemma NoWsAround(s: string, i: nat)
    requires i < |s| && !IsWs(s[i]) && !HasWs(s[..i]) && !HasWs(s[i + 1..])
    ensures !HasWs(s)
  {
    forall k | 0 <= k < |s| ensures !IsWs(s[k]) {
      if k < i {
        assert s[k] == s[..i][k];
      } else if k > i {
        assert s[k] == s[i + 1..][k - i - 1];
      }
    }
  }

  /**
    The pattern test on its own: one `@`, no whitespace, a non-empty local part and a
    domain with an inner dot.
  */
  lemma PatternIff(s: string)
    ensures MatchesEmailPattern(s) <==>
      (&& Count(s, '@') == 1
       && !HasWs(s)
       && exists at | 0 <= at < |s| :: s[at] == '@' && s[..at] != "" && HasInnerDot(s[at + 1..]))
  {
    if MatchesEmailPattern(s) {
      var at :| 0 <= at < |s| && s[at] == '@' && PatternRun(s[..at]) && DomainPattern(s[at + 1..]);
      PatternSides(s, at);
    } else if Count(s, '@') == 1 && !HasWs(s) {
      forall at | 0 <= at < |s| && s[at] == '@' && s[..at] != ""
        ensures !HasInnerDot(s[at + 1..])
      {
        if HasInnerDot(s[at + 1..]) {
          PatternFromRules(s, at);
          assert false;
        }
      }
    }
  }

  /** With a single `@` at `at` and no whitespace, the pattern matches as soon as the halves have the right shape. */
  lemma PatternFromRules(s: string, at: nat)
    requires at < |s| && s[at] == '@' && Count(s, '@') == 1 && !HasWs(s)
    requires s[..at] != "" && HasInnerDot(s[at + 1..])
    ensures MatchesEmailPattern(s)
  {
    var d := s[at + 1..];
    CountAround(s, at);
    NoWsInSlice(s, 0, at);
    NoWsInSlice(s, at + 1, |s|);
    PatternRunFrom(s[..at]);
    var dot :| 0 < dot < |d| - 1 && d[dot] == '.';
    CountAround'(d, dot);
    NoWsInSlice(d, 0, dot);
    NoWsInSlice(d, dot + 1, |d|);
    PatternRunFrom(d[..dot]);
    PatternRunFrom(d[dot + 1..]);
    assert DomainPattern(d);
  }

  lemma NoWsInSlice(s: string, i: nat, j: nat)
    requires i <= j <= |s| && !HasWs(s)
    ensures !HasWs(s[i..j])
  {
  }

  /**
    `isValidEmail` characterised: it accepts exactly the strings with one `@`, no
    whitespace, a non-empty local part, a domain with a dot that has a character on
    each side, and no `..` and no leading or trailing dot in either part.
  */
  lemma IsValidEmailIff(s: string)
    ensures IsValidEmail(s) <==> EmailRules(s)
  {
    PatternIff(s);
    if Count(s, '@') == 1 && !HasWs(s) {
      forall at | 0 <= at < |s| && s[at] == '@'
        ensures Split(s, '@') == [s[..at], s[at + 1..]]
      {
        SplitOnce(s, '@', at);
      }
    }
  }

  /**
    Deciding one address whose only `@` is known to stand at `at`: accepted exactly
    when it has no whitespace and its two halves obey `PartRules`.
  */
  lemma IsValidEmailAt(s: string, at: nat)
    requires at < |s| && s[at] == '@' && Count(s, '@') == 1
    ensures IsValidEmail(s) <==> !HasWs(s) && PartRules(s[..at], s[at + 1..])
  {
    IsValidEmailIff(s);
    CountAround(s, at);
  }

  /**
    An address assembled from a local part and a domain part, neither holding an `@`
    nor whitespace: the pattern matches exactly when the local part is non-empty and
    the domain has an inner dot, and the address is accepted exactly when the parts
    obey `PartRules`.
  */
  lemma EmailFromParts(localPart: string, domainPart: string)
    requires '@' !in localPart && '@' !in domainPart
    requires !HasWs(localPart) && !HasWs(domainPart)
    ensures MatchesEmailPattern(localPart + "@" + domainPart) <==> localPart != "" && HasInnerDot(domainPart)
    ensures IsValidEmail(localPart + "@" + domainPart) <==> PartRules(localPart, domainPart)
  {
    var s := localPart + "@" + domainPart;
    var at := |localPart|;
    assert s[..at] == localPart && s[at + 1..] == domainPart;
    CountAround(s, at);
    NoWsAround(s, at);
    IsValidEmailAt(s, at);
    PatternIff(s);
  }

  /** The dot rules are not implied by the pattern: some strings pass the pattern and are still refused. */
  lemma DotRulesNotRedundant()
    ensures MatchesEmailPattern("a..b@x.com") && !IsValidEmail("a..b@x.com")
  {
    assert "a..b@x.com" == "a..b" + "@" + "x.com";
    assert !HasWs("a..b") && !HasWs("x.com");
    assert HasInnerDot("x.com") by { assert "x.com"[1] == '.'; }
    assert HasDoubleDot("a..b") by { assert "a..b"[1] == '.' && "a..b"[2] == '.'; }
    EmailFromParts("a..b", "x.com");
  }

  /** A non-empty label joined by a dot to a well-dotted part is well-dotted. */
  lemma DottedJoin(a: string, b: string)
    requires a != "" && '.' !in a
    requires b != "" && !HasDoubleDot(b) && !HasEdgeDot(b)
    ensures !HasDoubleDot(a + "." + b) && !HasEdgeDot(a + "." + b)
  {
    var s := a + "." + b;
    forall i | 0 <= i < |s| - 1 ensures !(s[i] == '.' && s[i + 1] == '.') {
      if i < |a| {
        assert s[i] == a[i];
      } else if i > |a| {
        assert s[i] == b[i - |a| - 1] && s[i + 1] == b[i - |a|];
      }
    }
  }

  /** A label without dots is well-dotted. */
  lemma UndottedLabel(a: string)
    requires '.' !in a
    ensures !HasDoubleDot(a) && !HasEdgeDot(a)
  {
  }

  /** Any plain, dot-free user name at example.com is a valid address. */
  lemma AcceptsExampleComAddress(user: string)
    requires user != "" && '@' !in user && '.' !in user && !HasWs(user)
    ensures IsValidEmail(user + "@example.com")
  {
    assert user + "@example.com" == user + "@" + "example.com";
    assert !HasWs("example.com");
    assert PartRules(user, "example.com") by {
      assert "example.com" == "example" + "." + "com";
      assert "example.com"[7] == '.';
      DottedJoin("example", "com");
      UndottedLabel(user);
    }
    EmailFromParts(user, "example.com");
  }

  /** Addresses the repository's tests expect to be accepted. */
  lemma AcceptsPlainAddress()
    ensures IsValidEmail("test@example.com")
  {
    assert "test@example.com" == "test" + "@example.com";
    assert !HasWs("test");
    AcceptsExampleComAddress("test");
  }

  lemma AcceptsDottedAddress()
    ensures IsValidEmail("user.name@domain.co.uk")
  {
    assert "user.name@domain.co.uk" == "user.name" + "@" + "domain.co.uk";
    assert !HasWs("user.name") && !HasWs("domain.co.uk");
    DottedParts();
    EmailFromParts("user.name", "domain.co.uk");
  }

  lemma DottedParts()
    ensures PartRules("user.name", "domain.co.uk")
  {
    assert "user.name" == "user" + "." + "name";
    assert "domain.co.uk" == "domain" + "." + "co.uk";
    assert "co.uk" == "co" + "." + "uk";
    assert "domain.co.uk"[6] == '.';
    DottedJoin("user", "name");
    DottedJoin("co", "uk");
    DottedJoin("domain", "co.uk");
  }

  lemma AcceptsTaggedAddress()
    ensures IsValidEmail("test+label@example.org")
  {
    assert "test+label@example.org" == "test+label" + "@" + "example.org";
    assert !HasWs("test+label") && !HasWs("example.org");
    assert PartRules("test+label", "example.org") by {
      assert "example.org" == "example" + "." + "org";
      assert "example.org"[7] == '.';
      DottedJoin("example", "org");
      UndottedLabel("test+label");
    }
    EmailFromParts("test+label", "example.org");
  }

  /** Addresses the repository's tests expect to be refused. */
  lemma RejectsAddressWithoutAt()
    ensures !IsValidEmail("invalid-email")
  {
    assert '@' !in "invalid-email";
    if IsValidEmail("invalid-email") {
      PatternHasOneAt("invalid-email");
    }
  }

  lemma RejectsEmptyDomain()
    ensures !IsValidEmail("test@")
  {
    assert "test@" == "test" + "@" + "";
    assert !HasWs("test");
    EmailFromParts("test", "");
  }

  lemma RejectsEmptyLocalPart()
    ensures !IsValidEmail("@example.com")
  {
    assert "@example.com" == "" + "@" + "example.com";
    assert !HasWs("example.com");
    EmailFromParts("", "example.com");
  }

  lemma RejectsDoubleDot()
    ensures !IsValidEmail("test..test@example.com")
  {
    assert "test..test@example.com" == "test..test" + "@" + "example.com";
    assert !HasWs("test..test") && !HasWs("example.com");
    assert HasDoubleDot("test..test") by { assert "test..test"[4] == '.' && "test..test"[5] == '.'; }
    EmailFromParts("test..test", "example.com");
  }

  lemma RejectsDomainWithoutDot()
    ensures !IsValidEmail("test@example")
  {
    assert "test@example" == "test" + "@" + "example";
    assert !HasWs("test") && !HasWs("example");
    assert '.' !in "example";
    EmailFromParts("test", "example");
  }
}
