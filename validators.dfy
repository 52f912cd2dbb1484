/**
 * The two syntactic validators of `Validators` (utils/validators.py):
 * email addresses, and Nepali mobile numbers. Each regular expression of the
 * source is a fixed pattern, written here as a direct test on characters.
 */
module Validators {
  import opened Wrappers
  import opened Text

  // ---------------------------------------------------------------------
  // Email: re.match(r'^[a-zA-Z0-9._%+-]+@[a-zA-Z0-9.-]+\.[a-zA-Z]{2,}$', email)
  // ---------------------------------------------------------------------

  /** `[a-zA-Z0-9._%+-]` */
  predicate IsLocalChar(c: char) {
    IsAlpha(c) || IsDigit(c) || c == '.' || c == '_' || c == '%' || c == '+' || c == '-'
  }

  /** `[a-zA-Z0-9.-]` */
  predicate IsDomainChar(c: char) {
    IsAlpha(c) || IsDigit(c) || c == '.' || c == '-'
  }

  predicate AllLocal(s: string) { forall i :: 0 <= i < |s| ==> IsLocalChar(s[i]) }

  predicate AllDomain(s: string) { forall i :: 0 <= i < |s| ==> IsDomainChar(s[i]) }

  predicate AllAlpha(s: string) { forall i :: 0 <= i < |s| ==> IsAlpha(s[i]) }

  /** The three variable parts of `local@domain.tld` as the pattern bounds them. */
  predicate EmailParts(local: string, domain: string, tld: string) {
    |local| >= 1 && AllLocal(local) && |domain| >= 1 && AllDomain(domain)
    && |tld| >= 2 && AllAlpha(tld)
  }

  /** `s` is, from its first to its last character, an address `local@domain.tld`. */
  ghost predicate EmailShape(s: string) {
    exists local, domain, tld :: EmailParts(local, domain, tld) && s == local + "@" + domain + "." + tld
  }

  /** After the `@`: domain characters, a last `.`, then two or more letters. */
  predicate DomainWithTld(r: string) {
    match LastIndex(r, '.')
    case None => false
    case Some(dot) =>
      dot > 0 && AllDomain(r[..dot]) && |r| - dot - 1 >= 2 && AllAlpha(r[dot + 1..])
  }

  /** The pattern between `^` and `$` matches the whole of `s`. */
  predicate EmailBody(s: string) {
    match FirstIndex(s, '@')
    case None => false
    case Some(at) => at > 0 && AllLocal(s[..at]) && DomainWithTld(s[at + 1..])
  }

  /**
   * `Validators.validate_email`. Python's `$` matches at the very end and
   * also just before a single newline that ends the string, so the check
   * holds exactly when `s` is an address `local@domain.tld`, possibly
   * followed by one newline.
   */
  predicate ValidateEmail(s: string)
    ensures ValidateEmail(s) <==>
      EmailShape(s) || (|s| > 0 && s[|s| - 1] == '\n' && EmailShape(s[..|s| - 1]))
  {
    EmailBodyIsShape(s);
    if |s| > 0 && s[|s| - 1] == '\n' then
      EmailBodyIsShape(s[..|s| - 1]);
      EmailBody(s) || EmailBody(s[..|s| - 1])
    else
      EmailBody(s)
  }

  lemma EmailShapeFromBody(s: string)
    requires EmailBody(s)
    ensures EmailShape(s)
  {
    var at := FirstIndex(s, '@').value;
    var r := s[at + 1..];
    var dot := LastIndex(r, '.').value;
    var local, domain, tld := s[..at], r[..dot], r[dot + 1..];
    assert r == domain + "." + tld;
    assert s == local + "@" + domain + "." + tld;
    assert EmailParts(local, domain, tld);
  }

  /** Where the `@` and the last `.` of `local@domain.tld` sit. */
  lemma PartsLayout(local: string, domain: string, tld: string)
    requires EmailParts(local, domain, tld)
    ensures var s := local + "@" + domain + "." + tld;
      && s[|local|] == '@'
      && (forall k :: 0 <= k < |s| && k != |local| ==> s[k] != '@')
      && s[|local| + 1 + |domain|] == '.'
      && (forall k :: |local| + 1 + |domain| < k < |s| ==> IsAlpha(s[k]))
  {
    var s := local + "@" + domain + "." + tld;
    forall k | 0 <= k < |s| && k != |local| ensures s[k] != '@' {
      if k < |local| {
        assert s[k] == local[k];
      } else if k < |local| + 1 + |domain| {
        assert s[k] == domain[k - |local| - 1];
      } else if k > |local| + 1 + |domain| {
        assert s[k] == tld[k - |local| - |domain| - 2];
      }
    }
    forall k | |local| + 1 + |domain| < k < |s| ensures IsAlpha(s[k]) {
      assert s[k] == tld[k - |local| - |domain| - 2];
    }
  }

  lemma EmailBodyFromParts(local: string, domain: string, tld: string)
    requires EmailParts(local, domain, tld)
    ensures EmailBody(local + "@" + domain + "." + tld)
  {
    var s := local + "@" + domain + "." + tld;
    PartsLayout(local, domain, tld);
    FirstIndexAt(s, '@', |local|);
    assert s[..|local|] == local;
    var r := s[|local| + 1..];
    assert r == domain + "." + tld;
    assert forall k :: |domain| < k < |r| ==> r[k] == s[k + |local| + 1];
    LastIndexAt(r, '.', |domain|);
    assert r[..|domain|] == domain && r[|domain| + 1..] == tld;
  }

  /** The character-level test matches exactly the addresses `local@domain.tld`. */
  lemma EmailBodyIsShape(s: string)
    ensures EmailBody(s) <==> EmailShape(s)
  {
    if EmailBody(s) {
      EmailShapeFromBody(s);
    }
    if EmailShape(s) {
      var local, domain, tld :| EmailParts(local, domain, tld) && s == local + "@" + domain + "." + tld;
      EmailBodyFromParts(local, domain, tld);
    }
  }

  lemma BodyOneAt(b: string) returns (at: nat)
    requires EmailBody(b)
    ensures at < |b| && b[at] == '@' && forall k :: 0 <= k < |b| && k != at ==> b[k] != '@'
  {
    EmailShapeFromBody(b);
    var local, domain, tld :| EmailParts(local, domain, tld) && b == local + "@" + domain + "." + tld;
    PartsLayout(local, domain, tld);
    at := |local|;
  }

  /** An accepted address contains exactly one `@`. */
  lemma ValidEmailHasOneAt(s: string)
    requires ValidateEmail(s)
    ensures exists i :: 0 <= i < |s| && s[i] == '@' && forall k :: 0 <= k < |s| && k != i ==> s[k] != '@'
  {
    if EmailBody(s) {
      var at := BodyOneAt(s);
    } else {
      var b := s[..|s| - 1];
      var at := BodyOneAt(b);
      forall k | 0 <= k < |s| && k != at
        ensures s[k] != '@'
      {
        if k < |b| {
          assert s[k] == b[k];
        }
      }
      assert s[at] == b[at];
    }
  }

  /** Text without an `@` is never accepted. */
  lemma EmailNeedsAt(s: string)
    requires forall k :: 0 <= k < |s| ==> s[k] != '@'
    ensures !ValidateEmail(s)
  {
    if ValidateEmail(s) {
      ValidEmailHasOneAt(s);
    }
  }

  /** Every character of a matched address is a local, domain, `@` or `.` character: none is whitespace. */
  lemma EmailBodyNoSpace(s: string)
    requires EmailBody(s)
    ensures NoSpace(s) && |s| > 0
  {
    EmailShapeFromBody(s);
    var local, domain, tld :| EmailParts(local, domain, tld) && s == local + "@" + domain + "." + tld;
    forall k | 0 <= k < |s| ensures !IsSpace(s[k]) {
      if k < |local| {
        assert s[k] == local[k];
      } else if k == |local| {
      } else if k < |local| + 1 + |domain| {
        assert s[k] == domain[k - |local| - 1];
      } else if k == |local| + 1 + |domain| {
      } else {
        assert s[k] == tld[k - |local| - |domain| - 2];
      }
    }
  }

  /**
   * The address the chatbot stores is `query.strip()` of a query that passed
   * `validate_email`: the stripped text passes too, and is the address itself.
   */
  lemma ValidEmailStrip(s: string)
    requires ValidateEmail(s)
    ensures EmailBody(Strip(s)) && ValidateEmail(Strip(s))
  {
    if EmailBody(s) {
      EmailBodyNoSpace(s);
      StripNoSpace(s);
    } else {
      var b := s[..|s| - 1];
      EmailBodyNoSpace(b);
      StripDropsLast(s);
    }
  }

  // ---------------------------------------------------------------------
  // Phone: the text with every character except digits and `+` removed
  // must match one of three fixed patterns in full.
  // ---------------------------------------------------------------------

  /** One position of a fixed-length pattern. */
  datatype CharClass = Exactly(c: char) | Between(lo: char, hi: char) | AnyDigit

  predicate Admits(k: CharClass, c: char) {
    match k
    case Exactly(x) => c == x
    case Between(lo, hi) => lo <= c <= hi
    case AnyDigit => IsDigit(c)
  }

  /** `re.match('^' + p + '$', s)` for a pattern of single-character classes. */
  predicate FullMatch(p: seq<CharClass>, s: string) {
    |p| == |s| && forall i :: 0 <= i < |s| ==> Admits(p[i], s[i])
  }

  /** `\d{8}` */
  const EightDigits: seq<CharClass> := [AnyDigit, AnyDigit, AnyDigit, AnyDigit, AnyDigit, AnyDigit, AnyDigit, AnyDigit]

  /** `^\+9779[6-8]\d{8}$`, `^9[6-8]\d{8}$` and `^09[6-8]\d{8}$`, in the source's order. */
  const PhonePatterns: seq<seq<CharClass>> := [
    [Exactly('+'), Exactly('9'), Exactly('7'), Exactly('7'), Exactly('9'), Between('6', '8')] + EightDigits,
    [Exactly('9'), Between('6', '8')] + EightDigits,
    [Exactly('0'), Exactly('9'), Between('6', '8')] + EightDigits
  ]

  /** The characters `re.sub(r"[^\d+]", "", phone)` keeps. */
  predicate IsPhoneChar(c: char) { IsDigit(c) || c == '+' }

  /** `re.sub(r"[^\d+]", "", phone)` */
  function CleanPhone(s: string): (r: string)
    ensures forall i :: 0 <= i < |r| ==> IsPhoneChar(r[i])
  {
    if s == [] then []
    else (if IsPhoneChar(s[0]) then [s[0]] else []) + CleanPhone(s[1..])
  }

  /**
   * `Validators.validate_phone`: it holds exactly when the cleaned text is
   * a mobile number, bare, with a leading `0`, or with the country code
   * `+977`.
   */
  predicate ValidatePhone(s: string)
    ensures ValidatePhone(s) <==> NepaliMobile(CleanPhone(s))
  {
    var clean := CleanPhone(s);
    PatternsMeanMobile(clean);
    exists i | 0 <= i < |PhonePatterns| :: FullMatch(PhonePatterns[i], clean)
  }

  /** A ten-digit Nepali mobile number: `9`, then one of `6`, `7`, `8`, then eight digits. */
  predicate MobileNumber(t: string) {
    |t| == 10 && t[0] == '9' && '6' <= t[1] <= '8' && AllDigits(t[2..])
  }

  /** A mobile number, bare, after a leading `0`, or after the country code `+977`. */
  predicate NepaliMobile(c: string) {
    MobileNumber(c)
    || (|c| == 11 && c[0] == '0' && MobileNumber(c[1..]))
    || (|c| == 14 && c[..4] == "+977" && MobileNumber(c[4..]))
  }

  lemma PatternMeaning(c: string)
    ensures FullMatch(PhonePatterns[0], c) <==> (|c| == 14 && c[..4] == "+977" && MobileNumber(c[4..]))
    ensures FullMatch(PhonePatterns[1], c) <==> MobileNumber(c)
    ensures FullMatch(PhonePatterns[2], c) <==> (|c| == 11 && c[0] == '0' && MobileNumber(c[1..]))
  {
    var p0, p1, p2 := PhonePatterns[0], PhonePatterns[1], PhonePatterns[2];
    assert forall i :: 6 <= i < 14 ==> p0[i] == AnyDigit;
    assert forall i :: 2 <= i < 10 ==> p1[i] == AnyDigit;
    assert forall i :: 3 <= i < 11 ==> p2[i] == AnyDigit;
    if |c| == 14 {
      assert c[..4] == "+977" <==> c[0] == '+' && c[1] == '9' && c[2] == '7' && c[3] == '7';
      var u := c[4..][2..];
      assert forall j :: 0 <= j < 8 ==> u[j] == c[j + 6];
    }
    if |c| == 10 {
      var u := c[2..];
      assert forall j :: 0 <= j < 8 ==> u[j] == c[j + 2];
    }
    if |c| == 11 {
      var u := c[1..][2..];
      assert forall j :: 0 <= j < 8 ==> u[j] == c[j + 3];
    }
  }

  /** One of the three patterns matches the cleaned text `c` exactly when it is a mobile number. */
  lemma PatternsMeanMobile(c: string)
    ensures (exists i | 0 <= i < |PhonePatterns| :: FullMatch(PhonePatterns[i], c)) <==> NepaliMobile(c)
  {
    PatternMeaning(c);
    if NepaliMobile(c) {
      if MobileNumber(c) {
        assert FullMatch(PhonePatterns[1], c);
      } else if |c| == 11 && c[0] == '0' && MobileNumber(c[1..]) {
        assert FullMatch(PhonePatterns[2], c);
      } else {
        assert FullMatch(PhonePatterns[0], c);
      }
    }
  }

  lemma {:induction false} CleanPhoneConcat(a: string, b: string)
    ensures CleanPhone(a + b) == CleanPhone(a) + CleanPhone(b)
    decreases |a|
  {
    if a != [] {
      assert (a + b)[1..] == a[1..] + b;
      CleanPhoneConcat(a[1..], b);
    } else {
      assert a + b == b;
    }
  }

  lemma {:induction false} CleanPhoneKeeps(s: string)
    requires forall i :: 0 <= i < |s| ==> IsPhoneChar(s[i])
    ensures CleanPhone(s) == s
    decreases |s|
  {
    if s != [] {
      CleanPhoneKeeps(s[1..]);
    }
  }

  lemma {:induction false} CleanPhoneDrops(s: string)
    requires forall i :: 0 <= i < |s| ==> !IsPhoneChar(s[i])
    ensures CleanPhone(s) == []
    decreases |s|
  {
    if s != [] {
      CleanPhoneDrops(s[1..]);
    }
  }

  /** The verdict depends only on the digits and `+` signs of the text, in order. */
  lemma PhoneDependsOnlyOnClean(s: string)
    ensures ValidatePhone(s) == ValidatePhone(CleanPhone(s))
  {
    CleanPhoneKeeps(CleanPhone(s));
  }

  /** Cutting characters that are neither digits nor `+` off both ends keeps the cleaned text. */
  lemma CleanPhoneOfSlice(s: string, i: nat, j: nat)
    requires i <= j <= |s|
    requires forall k :: 0 <= k < i ==> !IsPhoneChar(s[k])
    requires forall k :: j <= k < |s| ==> !IsPhoneChar(s[k])
    ensures CleanPhone(s[i..j]) == CleanPhone(s)
  {
    var pre, mid, post := s[..i], s[i..j], s[j..];
    assert CleanPhone(pre) == [] by {
      assert forall k :: 0 <= k < |pre| ==> pre[k] == s[k];
      CleanPhoneDrops(pre);
    }
    assert CleanPhone(post) == [] by {
      assert forall k :: 0 <= k < |post| ==> post[k] == s[j + k];
      CleanPhoneDrops(post);
    }
    ThreeSlices(s, i, j);
    CleanPhoneConcat(pre, mid + post);
    CleanPhoneConcat(mid, post);
  }

  /** Two texts with the same digits and `+` signs get the same verdict. */
  lemma SameCleanSameVerdict(s: string, t: string)
    requires CleanPhone(s) == CleanPhone(t)
    ensures ValidatePhone(s) == ValidatePhone(t)
  {
  }

  /** Inserting a separator (a space, a dash, a bracket, a letter) never changes the verdict. */
  lemma PhoneIgnoresSeparator(a: string, x: char, b: string)
    requires !IsPhoneChar(x)
    ensures ValidatePhone(a + [x] + b) == ValidatePhone(a + b)
  {
    assert CleanPhone(a + [x] + b) == CleanPhone(a + b) by {
      CleanPhoneConcat(a + [x], b);
      CleanPhoneConcat(a, [x]);
      CleanPhoneConcat(a, b);
      assert CleanPhone([x]) == [];
    }
    SameCleanSameVerdict(a + [x] + b, a + b);
  }

  /**
   * The phone number the chatbot stores is `query.strip()` of a query that
   * passed `validate_phone`: stripping changes nothing the validator sees.
   */
  lemma PhoneStrip(s: string)
    ensures CleanPhone(Strip(s)) == CleanPhone(s)
    ensures ValidatePhone(Strip(s)) == ValidatePhone(s)
  {
    var i, j := StripSpan(s);
    CleanPhoneOfSlice(s, i, j);
    SameCleanSameVerdict(Strip(s), s);
  }
}
