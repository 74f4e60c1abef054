/**
 * The scenarios of the redaction layer's test suite, stated about the model: what
 * each fixed-width scanner finds in the suite's sample texts, and one complete
 * redact-and-restore call.
 */
module PiiExamples {
  import opened Wrappers
  import opened Text
  import opened PiiRedactor
  import opened PiiRoundTrip

  /** An Aadhaar number written in three groups is found, spaces included. */
  lemma AadhaarWithSpaces(p: string, a: string)
    requires p == "My Aadhaar is " && a == "1234 5678 9012"
    ensures Scan(AadhaarAt, p + a, 0) == [Span(14, 28)]
  {
    assert AadhaarLayout(a, 1, 1);
    AadhaarAfterLead(p, a);
  }

  /** An Aadhaar number written as twelve digits in a row is found. */
  lemma AadhaarWithoutSpaces(p: string, a: string)
    requires p == "Aadhaar: " && a == "123456789012"
    ensures Scan(AadhaarAt, p + a, 0) == [Span(9, 21)]
  {
    assert AadhaarLayout(a, 0, 0);
    AadhaarAfterLead(p, a);
  }

  /** A PAN in capitals is found. */
  lemma ValidPan(p: string, a: string)
    requires p == "My PAN is " && a == "ABCDE1234F"
    ensures Scan(PanAt, p + a, 0) == [Span(10, 20)]
  {
    PanAfterLead(p, a);
  }

  /** The PAN pattern is case-sensitive: the same PAN in lower case is not found. */
  lemma LowerCasePanIgnored(t: string)
    requires t == "abcde1234f"
    ensures Scan(PanAt, t, 0) == []
  {
    forall k | 0 <= k <= |t| ensures PanAt(t, k).None? {
      WordStart(t, k);
    }
    ScanNothing(PanAt, t, 0);
  }

  /** A ten-digit mobile number is found. */
  lemma ValidMobile(p: string, a: string)
    requires p == "Call me at " && a == "9876543210"
    ensures Scan(MobileAt, p + a, 0) == [Span(11, 21)]
  {
    MobileAfterLead(p, a);
  }

  /** Ten standalone digits are a mobile number exactly when the first is 6, 7, 8 or 9. */
  lemma MobileFirstDigit(p: string, s: string)
    requires Lead(p) && |s| == 10 && AllDigits(s)
    ensures Scan(MobileAt, p + s, 0) == if '6' <= s[0] <= '9' then [Span(|p|, |p| + 10)] else []
  {
    if '6' <= s[0] <= '9' {
      MobileAfterLead(p, s);
    } else {
      NoMobileFromLowDigit(p, s);
    }
  }

  /** Ten standalone digits starting with 0 to 5 hold no mobile number. */
  lemma NoMobileFromLowDigit(p: string, s: string)
    requires Lead(p) && |s| == 10 && AllDigits(s) && !('6' <= s[0] <= '9')
    ensures Scan(MobileAt, p + s, 0) == []
  {
    var t := p + s;
    LeadNoMatch(p, s);
    assert t[|p|] == s[0];
    WordStart(t, |p|);
    forall k | |p| <= k < |t| ensures IsWordChar(t[k]) {
      assert t[k] == s[k - |p|];
    }
    InsideWordNoMatch(t, |p|, |t|);
    ScanNothing(MobileAt, t, 0);
  }

  /** Text made of whitespace alone comes back unchanged, with an empty map. */
  lemma WhitespaceOnly(t: string, email: Matcher, name: Matcher, address: Matcher)
    requires t == "   \n\t  "
    requires Anchored(email) && Anchored(name) && Anchored(address)
    ensures Redacted(t, StandardMatchers(email, name, address)) == Redaction(t, [])
  {
    NoWordCharNoMatch(t, StandardMatchers(email, name, address));
  }

  /** A PAN after a lead holds no Aadhaar or mobile number: it starts with a letter and has no word start inside. */
  lemma PanNotDigits(p: string, a: string)
    requires Lead(p) && PanNumber(a)
    ensures Scan(AadhaarAt, p + a, 0) == [] && Scan(MobileAt, p + a, 0) == []
  {
    var t := p + a;
    LeadNoMatch(p, a);
    assert t[|p|] == a[0];
    WordStart(t, |p|);
    forall k | |p| <= k < |t| ensures IsWordChar(t[k]) {
      assert t[k] == a[k - |p|];
    }
    InsideWordNoMatch(t, |p|, |t|);
    ScanNothing(AadhaarAt, t, 0);
    ScanNothing(MobileAt, t, 0);
  }

  /**
   * A standalone PAN after a lead is the only match of the three fixed-width patterns,
   * and the only match of all six when the free-form patterns find nothing.
   */
  lemma PanOnlyMatch(p: string, a: string, email: Matcher, name: Matcher, address: Matcher)
    requires Lead(p) && PanNumber(a)
    requires Scan(email, p + a, 0) == [] && Scan(name, p + a, 0) == [] && Scan(address, p + a, 0) == []
    ensures AllMatches(p + a, StandardMatchers(email, name, address)) == [Match(Pan, a)]
  {
    var t := p + a;
    PanNotDigits(p, a);
    PanAfterLead(p, a);
    assert t[|p|..|t|] == a;
    var ms := StandardMatchers(email, name, address);
    forall c | c != Pan ensures Scan(MatcherFor(c, ms), t, 0) == [] {
    }
    OnlyPanMatches(t, ms, |p|, |t|);
  }

  /** When the PAN pattern finds one span and the other five find nothing, that span is the only match. */
  lemma OnlyPanMatches(t: string, ms: Matchers, i: nat, e: nat)
    requires i <= e <= |t|
    requires Scan(ms.pan, t, 0) == [Span(i, e)]
    requires forall c :: c != Pan ==> Scan(MatcherFor(c, ms), t, 0) == []
    ensures AllMatches(t, ms) == [Match(Pan, t[i..e])]
  {
    assert CategoryMatches(Pan, t, ms) == [Match(Pan, t[i..e])];
    forall c | c != Pan ensures CategoryMatches(c, t, ms) == [] {
      NoSpansNoMatches(c, MatcherFor(c, ms), t, ms);
    }
    AllMatchesByCategory(t, ms);
  }

  /** A category whose pattern finds nothing contributes no match. */
  lemma NoSpansNoMatches(c: Category, m: Matcher, t: string, ms: Matchers)
    requires m == MatcherFor(c, ms) && Scan(m, t, 0) == []
    ensures CategoryMatches(c, t, ms) == []
  {
  }

  /** The six categories' matches, written out in the order `redact` takes them. */
  lemma AllMatchesByCategory(t: string, ms: Matchers)
    ensures AllMatches(t, ms) == CategoryMatches(Aadhaar, t, ms) + CategoryMatches(Pan, t, ms)
      + CategoryMatches(Mobile, t, ms) + CategoryMatches(Email, t, ms)
      + CategoryMatches(Name, t, ms) + CategoryMatches(Address, t, ms)
  {
    MatchesUpToNext(t, ms, 0);
    MatchesUpToNext(t, ms, 1);
    MatchesUpToNext(t, ms, 2);
    MatchesUpToNext(t, ms, 3);
    MatchesUpToNext(t, ms, 4);
    MatchesUpToNext(t, ms, 5);
  }

  /**
   * A call with a single match longer than its placeholder: the map holds that one
   * entry, the match is gone from the text, and restoring gives the text back.
   */
  lemma SingleMatchRoundTrip(t: string, ms: Matchers, c: Category, a: string)
    requires AllMatches(t, ms) == [Match(c, a)]
    requires BracketFree(t) && |a| > |Placeholder(c, 1)|
    ensures var r := Redacted(t, ms);
      && r.entries == [Entry(Placeholder(c, 1), a)]
      && !Occurs(r.text, a)
      && Restored(r.text, r.entries) == t
  {
    var xs := [Match(c, a)];
    RedactedMapEnumerates(t, ms);
    assert Enumerate(xs) == [Entry(Placeholder(c, 1), a)];
    assert !Occurs(Placeholder(c, 1), a);
    assert OutsidePlaceholders(xs);
    RoundTrip(t, ms);
    OriginalsGone(t, ms);
    assert Redacted(t, ms).entries[0].value == a;
  }

  /** The first PAN placeholder is `[PAN_1]`. */
  lemma FirstPanPlaceholder()
    ensures Placeholder(Pan, 1) == "[PAN_1]"
  {
    assert DecimalString(1) == "1";
  }

  /**
   * `redact` then `restore` on a standalone PAN after a bracket-free lead, when the
   * free-form patterns find nothing: one entry `[PAN_1]`, the PAN gone, the text back.
   */
  lemma PanRoundTrip(p: string, a: string, email: Matcher, name: Matcher, address: Matcher)
    requires Lead(p) && PanNumber(a) && BracketFree(p)
    requires Scan(email, p + a, 0) == [] && Scan(name, p + a, 0) == [] && Scan(address, p + a, 0) == []
    ensures var r := Redacted(p + a, StandardMatchers(email, name, address));
      && r.entries == [Entry(Placeholder(Pan, 1), a)]
      && !Occurs(r.text, a)
      && Restored(r.text, r.entries) == p + a
  {
    PanOnlyMatch(p, a, email, name, address);
    FirstPanPlaceholder();
    forall i | 0 <= i < |p + a| ensures (p + a)[i] != '[' && (p + a)[i] != ']' {
      if i < |p| {
        assert (p + a)[i] == p[i];
      } else {
        assert (p + a)[i] == a[i - |p|];
      }
    }
    SingleMatchRoundTrip(p + a, StandardMatchers(email, name, address), Pan, a);
  }

  /**
   * `redact` and `restore` on the suite's PAN sample, when the free-form patterns find
   * nothing in it (as the real ones do not: the sample has no `@`, no title such as `Mr.`
   * and no street word): the map is `{"[PAN_1]": "ABCDE1234F"}`, the PAN no longer occurs in
   * the redacted text, and restoring gives the sample back.
   */
  lemma PanRedactedAndRestored(p: string, a: string, email: Matcher, name: Matcher, address: Matcher)
    requires p == "My PAN is " && a == "ABCDE1234F"
    requires Scan(email, p + a, 0) == [] && Scan(name, p + a, 0) == [] && Scan(address, p + a, 0) == []
    ensures var r := Redacted(p + a, StandardMatchers(email, name, address));
      && r.entries == [Entry("[PAN_1]", a)]
      && !Occurs(r.text, a)
      && Restored(r.text, r.entries) == p + a
  {
    assert PanNumber(a);
    PanRoundTrip(p, a, email, name, address);
    FirstPanPlaceholder();
  }
}
