/**
 * The PII redaction codec: `redact` replaces every match of six pattern categories,
 * taken in a fixed order, by a numbered placeholder `[CATEGORY_n]` and records
 * placeholder -> original in an insertion-ordered map; `restore` substitutes the
 * originals back.
 */
module PiiRedactor {
  import opened Wrappers
  import opened Text

  datatype Category = Aadhaar | Pan | Mobile | Email | Name | Address

  /** The order in which `redact` processes the categories. */
  const CategoryOrder: seq<Category> := [Aadhaar, Pan, Mobile, Email, Name, Address]

  /** Position of a category in `CategoryOrder`. */
  function Rank(c: Category): (k: nat)
    ensures k < |CategoryOrder| && CategoryOrder[k] == c
  {
    match c
    case Aadhaar => 0
    case Pan => 1
    case Mobile => 2
    case Email => 3
    case Name => 4
    case Address => 5
  }

  function Label(c: Category): string {
    match c
    case Aadhaar => "AADHAAR"
    case Pan => "PAN"
    case Mobile => "MOBILE"
    case Email => "EMAIL"
    case Name => "NAME"
    case Address => "ADDRESS"
  }

  /** The placeholder `[LABEL_n]` that stands for the n-th redacted item. */
  function Placeholder(c: Category, n: nat): string {
    Numbered(Label(c), n)
  }

  /** `[tag_n]`. */
  function Numbered(tag: string, n: nat): string {
    "[" + tag + "_" + DecimalString(n) + "]"
  }

  /** A placeholder starts with `[`, ends with `]` and has no bracket in between. */
  predicate KeyForm(k: string) {
    |k| >= 2 && k[0] == '[' && k[|k| - 1] == ']' && BracketFree(k[1..|k| - 1])
  }

  lemma LabelBracketFree(c: Category)
    ensures BracketFree(Label(c))
  {
  }

  lemma NumberedKeyForm(tag: string, n: nat)
    requires BracketFree(tag)
    ensures KeyForm(Numbered(tag, n))
  {
    var k := Numbered(tag, n);
    assert k[1..|k| - 1] == tag + "_" + DecimalString(n);
  }

  lemma PlaceholderKeyForm(c: Category, n: nat)
    ensures KeyForm(Placeholder(c, n))
  {
    LabelBracketFree(c);
    NumberedKeyForm(Label(c), n);
  }

  /** Two numbered keys that print the same carry the same number, whatever their labels. */
  lemma NumberedInjective(l1: string, n1: nat, l2: string, n2: nat)
    requires Numbered(l1, n1) == Numbered(l2, n2)
    ensures n1 == n2
  {
    var k := Numbered(l1, n1);
    var d1, d2 := DecimalString(n1), DecimalString(n2);
    // The digits are the suffix right before the closing bracket; the `_` precedes them.
    assert k[|k| - 1 - |d1|..|k| - 1] == d1;
    assert k[|k| - 1 - |d2|..|k| - 1] == d2;
    assert k[|k| - 2 - |d1|] == '_';
    assert k[|k| - 2 - |d2|] == '_';
    if |d1| != |d2| {
      assert false;
    }
    assert d1 == d2;
    DecimalStringInjective(n1, n2);
  }

  /** Two placeholders that print the same carry the same number, whatever their labels. */
  lemma PlaceholderNumberInjective(c1: Category, n1: nat, c2: Category, n2: nat)
    requires Placeholder(c1, n1) == Placeholder(c2, n2)
    ensures n1 == n2
  {
    NumberedInjective(Label(c1), n1, Label(c2), n2);
  }

  // ---------------------------------------------------------------------------
  // Pattern matching
  // ---------------------------------------------------------------------------

  predicate IsDigit(c: char) { '0' <= c <= '9' }
  predicate IsUpper(c: char) { 'A' <= c <= 'Z' }
  predicate IsWordChar(c: char) { IsDigit(c) || IsUpper(c) || ('a' <= c <= 'z') || c == '_' }
  /** `\s` in a `str` pattern: Python's Unicode whitespace, the characters `str.isspace` accepts. */
  predicate IsSpace(c: char) {
    || ('\t' <= c <= '\r') || ('\U{001C}' <= c <= ' ') || c == '\U{0085}' || c == '\U{00A0}'
    || c == '\U{1680}' || ('\U{2000}' <= c <= '\U{200A}') || c == '\U{2028}' || c == '\U{2029}'
    || c == '\U{202F}' || c == '\U{205F}' || c == '\U{3000}'
  }

  /** `\b`: a word character on exactly one side of position `i`. */
  predicate Boundary(t: string, i: nat) {
    (0 < i <= |t| && IsWordChar(t[i - 1])) != (i < |t| && IsWordChar(t[i]))
  }

  /** `\d{n}` at position `i`. */
  predicate DigitsAt(t: string, i: nat, n: nat) {
    i + n <= |t| && forall k :: i <= k < i + n ==> IsDigit(t[k])
  }

  /** The position after `\s?` at `i` (the optional whitespace is taken when present). */
  function AfterOptionalSpace(t: string, i: nat): nat {
    if i < |t| && IsSpace(t[i]) then i + 1 else i
  }

  /**
   * A matcher gives the end of the match that starts at position `i`, if any:
   * what `re.finditer` finds when it tries the pattern at `i`.
   */
  type Matcher = (string, nat) -> Option<nat>

  /** `\b\d{4}\s?\d{4}\s?\d{4}\b` tried at `i`. */
  function AadhaarAt(t: string, i: nat): Option<nat> {
    if Boundary(t, i) && DigitsAt(t, i, 4) then
      var j := AfterOptionalSpace(t, i + 4);
      if DigitsAt(t, j, 4) then
        var k := AfterOptionalSpace(t, j + 4);
        if DigitsAt(t, k, 4) && Boundary(t, k + 4) then Some(k + 4) else None
      else None
    else None
  }

  /** `\b\d{4}\s?\d{4}\s?\d{4}\b` matches `t[i..e]` exactly when that is an Aadhaar number standing alone. */
  lemma AadhaarAtIff(t: string, i: nat, e: nat)
    ensures AadhaarAt(t, i) == Some(e) <==> i <= e <= |t| && AadhaarNumber(t[i..e]) && Isolated(t, i, e)
  {
    if AadhaarAt(t, i) == Some(e) {
      AadhaarMatchIsNumber(t, i, e);
    }
    if i <= e <= |t| && AadhaarNumber(t[i..e]) && Isolated(t, i, e) {
      var s := t[i..e];
      if AadhaarLayout(s, 0, 0) {
        AadhaarLayoutMatches(t, i, e, 0, 0);
      } else if AadhaarLayout(s, 1, 0) {
        AadhaarLayoutMatches(t, i, e, 1, 0);
      } else if AadhaarLayout(s, 0, 1) {
        AadhaarLayoutMatches(t, i, e, 0, 1);
      } else {
        AadhaarLayoutMatches(t, i, e, 1, 1);
      }
    }
  }

  /** What the scanner matches is a standalone Aadhaar number. */
  lemma AadhaarMatchIsNumber(t: string, i: nat, e: nat)
    requires AadhaarAt(t, i) == Some(e)
    ensures i <= e <= |t| && AadhaarNumber(t[i..e]) && Isolated(t, i, e)
  {
    var j := AfterOptionalSpace(t, i + 4);
    var k := AfterOptionalSpace(t, j + 4);
    OptionalSpace(t, i + 4);
    OptionalSpace(t, j + 4);
    var g1: nat, g2: nat := j - i - 4, k - j - 4;
    AadhaarLayoutShift(t, i, e, g1, g2);
    BoundaryBefore(t, i);
    BoundaryAfter(t, e);
  }

  /** `\s?` consumes zero or one whitespace character. */
  lemma OptionalSpace(t: string, p: nat)
    ensures p <= AfterOptionalSpace(t, p) <= p + 1
    ensures p <= |t| ==> SpacesAt(t, p, AfterOptionalSpace(t, p) - p)
  {
  }

  /** The layout of the slice `t[i..e]`, read off `t` itself. */
  lemma AadhaarLayoutShift(t: string, i: nat, e: nat, g1: nat, g2: nat)
    requires i + 12 + g1 + g2 == e <= |t|
    ensures AadhaarLayout(t[i..e], g1, g2) <==>
      && DigitsAt(t, i, 4) && SpacesAt(t, i + 4, g1)
      && DigitsAt(t, i + 4 + g1, 4) && SpacesAt(t, i + 8 + g1, g2)
      && DigitsAt(t, i + 8 + g1 + g2, 4)
  {
    var s := t[i..e];
    assert forall p :: 0 <= p < |s| ==> s[p] == t[i + p];
  }

  /** A standalone Aadhaar number in any of its four layouts is what the scanner matches. */
  lemma AadhaarLayoutMatches(t: string, i: nat, e: nat, g1: nat, g2: nat)
    requires g1 <= 1 && g2 <= 1 && i <= e <= |t|
    requires AadhaarLayout(t[i..e], g1, g2) && Isolated(t, i, e)
    ensures AadhaarAt(t, i) == Some(e)
  {
    AadhaarLayoutShift(t, i, e, g1, g2);
    AadhaarFound(t, i, e, g1, g2);
  }

  /** The same, with the layout read off the text itself. */
  lemma AadhaarFound(t: string, i: nat, e: nat, g1: nat, g2: nat)
    requires g1 <= 1 && g2 <= 1 && i + 12 + g1 + g2 == e <= |t|
    requires DigitsAt(t, i, 4) && SpacesAt(t, i + 4, g1)
    requires DigitsAt(t, i + 4 + g1, 4) && SpacesAt(t, i + 8 + g1, g2)
    requires DigitsAt(t, i + 8 + g1 + g2, 4)
    requires Isolated(t, i, e)
    ensures AadhaarAt(t, i) == Some(e)
  {
    assert IsDigit(t[i + 4 + g1]) && IsDigit(t[i + 8 + g1 + g2]);
    assert AfterOptionalSpace(t, i + 4) == i + 4 + g1;
    assert AfterOptionalSpace(t, i + 8 + g1) == i + 8 + g1 + g2;
    BoundaryBefore(t, i);
    BoundaryAfter(t, e);
  }

  /** `\b[A-Z]{5}\d{4}[A-Z]\b` tried at `i`. */
  function PanAt(t: string, i: nat): Option<nat> {
    if Boundary(t, i) && i + 10 <= |t|
       && (forall k :: i <= k < i + 5 ==> IsUpper(t[k]))
       && DigitsAt(t, i + 5, 4) && IsUpper(t[i + 9]) && Boundary(t, i + 10)
    then Some(i + 10) else None
  }

  /** `\b[6-9]\d{9}\b` tried at `i`. */
  function MobileAt(t: string, i: nat): Option<nat> {
    if Boundary(t, i) && i < |t| && '6' <= t[i] <= '9'
       && DigitsAt(t, i + 1, 9) && Boundary(t, i + 10)
    then Some(i + 10) else None
  }

  // ---------------------------------------------------------------------------
  // What the three fixed-width scanners match
  // ---------------------------------------------------------------------------

  predicate AllDigits(s: string) {
    forall k :: 0 <= k < |s| ==> IsDigit(s[k])
  }

  /** The match `t[i..e]` stands alone: no word character right before it or right after it. */
  predicate Isolated(t: string, i: nat, e: nat)
    requires i <= e <= |t|
  {
    (i == 0 || !IsWordChar(t[i - 1])) && (e == |t| || !IsWordChar(t[e]))
  }

  /** `n` whitespace characters at position `i`. */
  predicate SpacesAt(t: string, i: nat, n: nat) {
    i + n <= |t| && forall k :: i <= k < i + n ==> IsSpace(t[k])
  }

  /** Twelve digits in groups of four, `g1` whitespace characters after the first group, `g2` after the second. */
  predicate AadhaarLayout(s: string, g1: nat, g2: nat) {
    && |s| == 12 + g1 + g2
    && DigitsAt(s, 0, 4) && SpacesAt(s, 4, g1)
    && DigitsAt(s, 4 + g1, 4) && SpacesAt(s, 8 + g1, g2)
    && DigitsAt(s, 8 + g1 + g2, 4)
  }

  /** An Aadhaar number: twelve digits, with one optional whitespace character after the fourth and after the eighth. */
  predicate AadhaarNumber(s: string) {
    AadhaarLayout(s, 0, 0) || AadhaarLayout(s, 1, 0) || AadhaarLayout(s, 0, 1) || AadhaarLayout(s, 1, 1)
  }

  /** A PAN: five capital letters, four digits, one capital letter. */
  predicate PanNumber(s: string) {
    && |s| == 10
    && (forall k :: 0 <= k < 5 ==> IsUpper(s[k]))
    && (forall k :: 5 <= k < 9 ==> IsDigit(s[k]))
    && IsUpper(s[9])
  }

  /** A mobile number: ten digits, the first of them 6, 7, 8 or 9. */
  predicate MobileNumber(s: string) {
    |s| == 10 && '6' <= s[0] <= '9' && AllDigits(s)
  }

  /** At a word character, `\b` holds exactly when no word character precedes it. */
  lemma BoundaryBefore(t: string, i: nat)
    requires i < |t| && IsWordChar(t[i])
    ensures Boundary(t, i) <==> (i == 0 || !IsWordChar(t[i - 1]))
  {
  }

  /** After a word character, `\b` holds exactly when no word character follows. */
  lemma BoundaryAfter(t: string, e: nat)
    requires 0 < e <= |t| && IsWordChar(t[e - 1])
    ensures Boundary(t, e) <==> (e == |t| || !IsWordChar(t[e]))
  {
  }

  /** `\b[6-9]\d{9}\b` matches `t[i..e]` exactly when that is a mobile number standing alone. */
  lemma MobileAtIff(t: string, i: nat, e: nat)
    ensures MobileAt(t, i) == Some(e) <==> i + 10 == e <= |t| && MobileNumber(t[i..e]) && Isolated(t, i, e)
  {
    if i + 10 == e <= |t| {
      var s := t[i..e];
      assert AllDigits(s) <==> DigitsAt(t, i, 10) by {
        assert forall k :: 0 <= k < 10 ==> s[k] == t[i + k];
      }
      assert DigitsAt(t, i, 10) <==> IsDigit(t[i]) && DigitsAt(t, i + 1, 9);
      if DigitsAt(t, i, 10) {
        BoundaryBefore(t, i);
        BoundaryAfter(t, e);
      }
    }
  }

  /** `\b[A-Z]{5}\d{4}[A-Z]\b` matches `t[i..e]` exactly when that is a PAN standing alone. */
  lemma PanAtIff(t: string, i: nat, e: nat)
    ensures PanAt(t, i) == Some(e) <==> i + 10 == e <= |t| && PanNumber(t[i..e]) && Isolated(t, i, e)
  {
    if i + 10 == e <= |t| {
      var s := t[i..e];
      assert forall k :: 0 <= k < 10 ==> s[k] == t[i + k];
      if IsUpper(t[i]) && IsUpper(t[e - 1]) {
        BoundaryBefore(t, i);
        BoundaryAfter(t, e);
      }
    }
  }

  /** One matcher per category; the redaction results below hold whatever they are. */
  datatype Matchers = Matchers(aadhaar: Matcher, pan: Matcher, mobile: Matcher,
                               email: Matcher, name: Matcher, address: Matcher)

  /**
   * A matcher whose matches start and end at a word boundary. All six patterns of
   * `redact` begin and end with `\b`, so all six are anchored.
   */
  ghost predicate Anchored(m: Matcher) {
    forall t, i :: m(t, i).Some? ==> Boundary(t, i) && Boundary(t, m(t, i).value)
  }

  /**
   * The patterns `redact` uses: the three fixed-width ones written out above, and the
   * three free-form ones (email, titled name, street address) kept abstract. The
   * fixed-width scanners are anchored at word boundaries, so the whole table is as soon
   * as the free-form ones are.
   */
  function StandardMatchers(email: Matcher, name: Matcher, address: Matcher): (ms: Matchers)
    ensures ms.aadhaar == AadhaarAt && ms.pan == PanAt && ms.mobile == MobileAt
    ensures ms.email == email && ms.name == name && ms.address == address
    ensures Anchored(ms.aadhaar) && Anchored(ms.pan) && Anchored(ms.mobile)
    ensures Anchored(email) && Anchored(name) && Anchored(address) ==>
      forall c :: Anchored(MatcherFor(c, ms))
  {
    Matchers(AadhaarAt, PanAt, MobileAt, email, name, address)
  }

  function MatcherFor(c: Category, ms: Matchers): Matcher {
    match c
    case Aadhaar => ms.aadhaar
    case Pan => ms.pan
    case Mobile => ms.mobile
    case Email => ms.email
    case Name => ms.name
    case Address => ms.address
  }

  datatype Span = Span(start: nat, end: nat)

  /**
   * `re.finditer` from position `i`: try the pattern at each position in turn; after a
   * match resume at its end. A matcher reply that is empty or runs past the text is no match.
   */
  function Scan(m: Matcher, t: string, i: nat): (r: seq<Span>)
    ensures forall k :: 0 <= k < |r| ==> i <= r[k].start < r[k].end <= |t|
    ensures forall k :: 0 <= k < |r| - 1 ==> r[k].end <= r[k + 1].start
    decreases |t| + 1 - i
  {
    if i > |t| then []
    else
      match m(t, i)
      case Some(e) =>
        if i < e <= |t| then [Span(i, e)] + Scan(m, t, e) else Scan(m, t, i + 1)
      case None => Scan(m, t, i + 1)
  }

  /** `finditer` moves past positions where the pattern does not match. */
  lemma {:induction false} ScanSkip(m: Matcher, t: string, i: nat, j: nat)
    requires i <= j <= |t| + 1
    requires forall k :: i <= k < j ==> m(t, k).None?
    ensures Scan(m, t, i) == Scan(m, t, j)
    decreases j - i
  {
    if i < j {
      ScanSkip(m, t, i + 1, j);
    }
  }

  /** A match at `i` is reported, and the search resumes where it ends. */
  lemma ScanHit(m: Matcher, t: string, i: nat, e: nat)
    requires m(t, i) == Some(e) && i < e <= |t|
    ensures Scan(m, t, i) == [Span(i, e)] + Scan(m, t, e)
  {
  }

  /** A matcher that matches nowhere from `i` on finds nothing. */
  lemma ScanNothing(m: Matcher, t: string, i: nat)
    requires forall k :: i <= k <= |t| ==> m(t, k).None?
    ensures Scan(m, t, i) == []
  {
    if i <= |t| {
      ScanSkip(m, t, i, |t| + 1);
    }
  }

  /** The fixed-width scanners match only at the first character of a word. */
  lemma WordStart(t: string, k: nat)
    ensures AadhaarAt(t, k).Some? ==> k < |t| && IsDigit(t[k]) && (k == 0 || !IsWordChar(t[k - 1]))
    ensures PanAt(t, k).Some? ==> k < |t| && IsUpper(t[k]) && (k == 0 || !IsWordChar(t[k - 1]))
    ensures MobileAt(t, k).Some? ==> k < |t| && '6' <= t[k] <= '9' && (k == 0 || !IsWordChar(t[k - 1]))
  {
  }

  /** Where no digit stands, neither an Aadhaar number nor a mobile number starts. */
  lemma NoDigitsNoMatch(t: string, i: nat, j: nat)
    requires forall k :: i <= k < j && k < |t| ==> !IsDigit(t[k])
    ensures forall k :: i <= k < j ==> AadhaarAt(t, k).None? && MobileAt(t, k).None?
  {
    forall k | i <= k < j ensures AadhaarAt(t, k).None? && MobileAt(t, k).None? {
      WordStart(t, k);
    }
  }

  /** Inside a run of word characters no fixed-width scanner starts. */
  lemma InsideWordNoMatch(t: string, i: nat, j: nat)
    requires i <= j <= |t|
    requires forall k :: i <= k < j ==> IsWordChar(t[k])
    ensures forall k :: i < k <= j ==> AadhaarAt(t, k).None? && PanAt(t, k).None? && MobileAt(t, k).None?
  {
    forall k | i < k <= j ensures AadhaarAt(t, k).None? && PanAt(t, k).None? && MobileAt(t, k).None? {
      WordStart(t, k);
      assert IsWordChar(t[k - 1]);
    }
  }

  /** Text that can lead up to a match: no digit in it, and no word character at its end. */
  predicate Lead(p: string) {
    && (forall k :: 0 <= k < |p| ==> !IsDigit(p[k]))
    && (p == [] || !IsWordChar(p[|p| - 1]))
  }

  /** Nothing starts inside a lead, and after a match that ends the text nothing follows. */
  lemma LeadNoMatch(p: string, a: string)
    requires Lead(p) && |a| > 0
    ensures forall k :: 0 <= k < |p| ==> AadhaarAt(p + a, k).None? && MobileAt(p + a, k).None?
    ensures forall k :: 0 <= k < |p| ==> PanAt(p + a, k).None?
    ensures AadhaarAt(p + a, |p + a|).None? && PanAt(p + a, |p + a|).None? && MobileAt(p + a, |p + a|).None?
  {
    var t := p + a;
    NoDigitsNoMatch(t, 0, |p|);
    forall k | 0 <= k < |p| ensures PanAt(t, k).None? {
      if k + 5 < |p| {
        assert t[k + 5] == p[k + 5];
      } else {
        assert t[|p| - 1] == p[|p| - 1];
      }
    }
    WordStart(t, |t|);
  }

  /** After a lead, a standalone Aadhaar number is the one match. */
  lemma AadhaarAfterLead(p: string, a: string)
    requires Lead(p) && AadhaarNumber(a)
    ensures Scan(AadhaarAt, p + a, 0) == [Span(|p|, |p| + |a|)]
  {
    var t := p + a;
    LeadNoMatch(p, a);
    ScanSkip(AadhaarAt, t, 0, |p|);
    assert t[|p|..|t|] == a;
    AadhaarAtIff(t, |p|, |t|);
    ScanHit(AadhaarAt, t, |p|, |t|);
    ScanNothing(AadhaarAt, t, |t|);
  }

  /** After a lead, a standalone PAN is the one match. */
  lemma PanAfterLead(p: string, a: string)
    requires Lead(p) && PanNumber(a)
    ensures Scan(PanAt, p + a, 0) == [Span(|p|, |p| + |a|)]
  {
    var t := p + a;
    LeadNoMatch(p, a);
    ScanSkip(PanAt, t, 0, |p|);
    assert t[|p|..|t|] == a;
    PanAtIff(t, |p|, |t|);
    ScanHit(PanAt, t, |p|, |t|);
    ScanNothing(PanAt, t, |t|);
  }

  /** After a lead, a standalone mobile number is the one match. */
  lemma MobileAfterLead(p: string, a: string)
    requires Lead(p) && MobileNumber(a)
    ensures Scan(MobileAt, p + a, 0) == [Span(|p|, |p| + |a|)]
  {
    var t := p + a;
    LeadNoMatch(p, a);
    ScanSkip(MobileAt, t, 0, |p|);
    assert t[|p|..|t|] == a;
    MobileAtIff(t, |p|, |t|);
    ScanHit(MobileAt, t, |p|, |t|);
    ScanNothing(MobileAt, t, |t|);
  }

  /** Text without a word character has no `\b`, so anchored matchers find nothing in it. */
  lemma NoWordCharNoMatch(t: string, ms: Matchers)
    requires forall k :: 0 <= k < |t| ==> !IsWordChar(t[k])
    requires forall c :: Anchored(MatcherFor(c, ms))
    ensures Redacted(t, ms) == Redaction(t, [])
  {
    forall c ensures Scan(MatcherFor(c, ms), t, 0) == [] {
      var m := MatcherFor(c, ms);
      assert Anchored(m);
      forall k | 0 <= k <= |t| ensures m(t, k).None? {
        assert !Boundary(t, k);
      }
      ScanNothing(m, t, 0);
    }
    NoMatchesNoChange(t, ms);
  }

  /** One match: its category and the matched text. */
  datatype Match = Match(category: Category, text: string)

  /** The matches of one category, in text order. */
  function CategoryMatches(c: Category, t: string, ms: Matchers): (r: seq<Match>)
    ensures forall k :: 0 <= k < |r| ==> r[k].category == c && |r[k].text| > 0
  {
    var spans := Scan(MatcherFor(c, ms), t, 0);
    seq(|spans|, k requires 0 <= k < |spans| => Match(c, t[spans[k].start..spans[k].end]))
  }

  /** The matches of the first `n` categories, category after category. */
  function MatchesUpTo(t: string, ms: Matchers, n: nat): seq<Match>
    requires n <= |CategoryOrder|
  {
    if n == 0 then [] else MatchesUpTo(t, ms, n - 1) + CategoryMatches(CategoryOrder[n - 1], t, ms)
  }

  lemma MatchesUpToNext(t: string, ms: Matchers, n: nat)
    requires n < |CategoryOrder|
    ensures MatchesUpTo(t, ms, n + 1) == MatchesUpTo(t, ms, n) + CategoryMatches(CategoryOrder[n], t, ms)
  {
  }

  /** Every match `redact` handles, in the order it handles them. */
  function AllMatches(t: string, ms: Matchers): seq<Match> {
    MatchesUpTo(t, ms, |CategoryOrder|)
  }

  // ---------------------------------------------------------------------------
  // The map and the two directions
  // ---------------------------------------------------------------------------

  datatype Entry = Entry(key: string, value: string)

  function Keys(m: seq<Entry>): seq<string> {
    seq(|m|, i requires 0 <= i < |m| => m[i].key)
  }

  /** `d[k] = v` on an insertion-ordered dict: overwrite in place, or append when new. */
  function DictSet(m: seq<Entry>, k: string, v: string): seq<Entry> {
    if m == [] then [Entry(k, v)]
    else if m[0].key == k then [Entry(k, v)] + m[1..]
    else [m[0]] + DictSet(m[1..], k, v)
  }

  lemma {:induction false} DictSetFresh(m: seq<Entry>, k: string, v: string)
    requires k !in Keys(m)
    ensures DictSet(m, k, v) == m + [Entry(k, v)]
  {
    if m != [] {
      assert m[0].key == Keys(m)[0];
      assert Keys(m[1..]) == Keys(m)[1..];
      DictSetFresh(m[1..], k, v);
    }
  }

  /** The running state of `redact`: the partly redacted text and the map so far. */
  datatype Redaction = Redaction(text: string, entries: seq<Entry>)

  /** One iteration of `redact`'s loop body, for match `x`. */
  function RedactStep(st: Redaction, x: Match): Redaction {
    var placeholder := Placeholder(x.category, |st.entries| + 1);
    Redaction(ReplaceAll(st.text, x.text, placeholder), DictSet(st.entries, placeholder, x.text))
  }

  /** `redact` after handling the matches `xs` of `t`, from a fresh map. */
  function RedactAll(t: string, xs: seq<Match>): Redaction {
    if xs == [] then Redaction(t, []) else RedactStep(RedactAll(t, xs[..|xs| - 1]), xs[|xs| - 1])
  }

  /** The result of `redact(t)`. */
  function Redacted(t: string, ms: Matchers): Redaction {
    RedactAll(t, AllMatches(t, ms))
  }

  /** The result of `restore(t, m)`: replace each key by its value, in map order. */
  function Restored(t: string, m: seq<Entry>): string {
    if m == [] then t else ReplaceAll(Restored(t, m[..|m| - 1]), m[|m| - 1].key, m[|m| - 1].value)
  }

  /** The map `redact` is expected to build: the i-th match under placeholder number i + 1. */
  function Enumerate(xs: seq<Match>): seq<Entry> {
    seq(|xs|, i requires 0 <= i < |xs| => Entry(Placeholder(xs[i].category, i + 1), xs[i].text))
  }

  // ---------------------------------------------------------------------------
  // The in-place redactor
  // ---------------------------------------------------------------------------

  class Redactor {
    const matchers: Matchers
    var redactionMap: seq<Entry>

    /** The redactor with the standard patterns, the free-form ones given. */
    constructor (email: Matcher, name: Matcher, address: Matcher)
      ensures matchers == StandardMatchers(email, name, address) && redactionMap == []
    {
      matchers := StandardMatchers(email, name, address);
      redactionMap := [];
    }

    /** `redact`: the map is rebuilt from scratch on every call and also kept in `redactionMap`. */
    method Redact(text: string) returns (redacted: string, rmap: seq<Entry>)
      modifies this
      ensures Redaction(redacted, rmap) == Redacted(text, matchers)
      ensures redactionMap == rmap
    {
      redacted := text;
      redactionMap := [];
      // One loop per category, in the order of `CategoryOrder`.
      redacted := RedactCategory(text, 0, redacted);
      redacted := RedactCategory(text, 1, redacted);
      redacted := RedactCategory(text, 2, redacted);
      redacted := RedactCategory(text, 3, redacted);
      redacted := RedactCategory(text, 4, redacted);
      redacted := RedactCategory(text, 5, redacted);
      rmap := redactionMap;
    }

    /**
     * One of `redact`'s six loops, for category number `ci`: the matches of that
     * category in the original `text`, after the matches of the earlier categories.
     */
    method RedactCategory(text: string, ci: nat, redacted0: string) returns (redacted: string)
      modifies this
      requires ci < |CategoryOrder|
      requires Redaction(redacted0, redactionMap) == RedactAll(text, MatchesUpTo(text, matchers, ci))
      ensures Redaction(redacted, redactionMap) == RedactAll(text, MatchesUpTo(text, matchers, ci + 1))
    {
      var category := CategoryOrder[ci];
      var found := CategoryMatches(category, text, matchers);
      redacted := RedactMatches(text, category, found, redacted0, MatchesUpTo(text, matchers, ci));
      MatchesUpToNext(text, matchers, ci);
    }

    /** The body of one category loop over its matches `found`, in order, after the matches `before`. */
    method RedactMatches(text: string, category: Category, found: seq<Match>, redacted0: string,
                         ghost before: seq<Match>)
      returns (redacted: string)
      modifies this
      requires forall k :: 0 <= k < |found| ==> found[k].category == category
      requires Redaction(redacted0, redactionMap) == RedactAll(text, before)
      ensures Redaction(redacted, redactionMap) == RedactAll(text, before + found)
    {
      redacted := redacted0;
      assert before + found[..0] == before;
      for k := 0 to |found|
        invariant Redaction(redacted, redactionMap) == RedactAll(text, before + found[..k])
      {
        redacted := RedactMatch(category, found[k], redacted);
        RedactAllSnoc(text, before, found, k);
      }
      assert found[..|found|] == found;
    }

    /** One iteration: number the match after the entries so far, record it, replace it. */
    method RedactMatch(category: Category, x: Match, redacted0: string) returns (redacted: string)
      modifies this
      requires x.category == category
      ensures Redaction(redacted, redactionMap) == RedactStep(Redaction(redacted0, old(redactionMap)), x)
    {
      var original := x.text;
      var placeholder := Placeholder(category, |redactionMap| + 1);
      redactionMap := DictSet(redactionMap, placeholder, original);
      redacted := ReplaceAll(redacted0, original, placeholder);
    }

    /** `restore`: replace each key of `rmap` by its value, in map order. */
    method Restore(text: string, rmap: seq<Entry>) returns (restored: string)
      ensures restored == Restored(text, rmap)
      ensures rmap == [] ==> restored == text
    {
      restored := text;
      for i := 0 to |rmap|
        invariant restored == Restored(text, rmap[..i])
      {
        assert rmap[..i + 1][..i] == rmap[..i];
        restored := ReplaceAll(restored, rmap[i].key, rmap[i].value);
      }
      assert rmap[..|rmap|] == rmap;
    }
  }

  /** Handling one more match is one more loop iteration. */
  lemma RedactAllSnoc(t: string, before: seq<Match>, found: seq<Match>, k: nat)
    requires k < |found|
    ensures RedactAll(t, before + found[..k + 1]) == RedactStep(RedactAll(t, before + found[..k]), found[k])
  {
    var xs := before + found[..k + 1];
    var n := |before| + k;
    SnocSplit(before, found, k);
    assert |xs| == n + 1;
    assert RedactAll(t, xs) == RedactStep(RedactAll(t, xs[..n]), xs[n]);
  }

  // ---------------------------------------------------------------------------
  // Properties
  // ---------------------------------------------------------------------------

  /**
   * Each match adds exactly one entry; the i-th match is stored under the placeholder
   * numbered i + 1 (one counter across all categories), with the matched text as value.
   */
  lemma {:induction false} RedactMapEnumerates(t: string, xs: seq<Match>)
    ensures RedactAll(t, xs).entries == Enumerate(xs)
  {
    if xs != [] {
      var init := xs[..|xs| - 1];
      var x := xs[|xs| - 1];
      RedactMapEnumerates(t, init);
      RedactStepEntries(RedactAll(t, init), x);
      EnumerateFreshKey(init, x.category);
      DictSetFresh(Enumerate(init), Placeholder(x.category, |init| + 1), x.text);
      EnumerateSnoc(xs);
    }
  }

  /** The map of `redact(t)` numbers every match of `t` in the order handled, from 1. */
  lemma RedactedMapEnumerates(t: string, ms: Matchers)
    ensures Redacted(t, ms).entries == Enumerate(AllMatches(t, ms))
  {
    RedactMapEnumerates(t, AllMatches(t, ms));
  }

  lemma RedactStepEntries(st: Redaction, x: Match)
    ensures RedactStep(st, x).entries == DictSet(st.entries, Placeholder(x.category, |st.entries| + 1), x.text)
  {
  }

  lemma EnumerateFreshKey(xs: seq<Match>, c: Category)
    ensures Placeholder(c, |xs| + 1) !in Keys(Enumerate(xs))
  {
    var m := Enumerate(xs);
    var key := Placeholder(c, |xs| + 1);
    forall i | 0 <= i < |xs| ensures Keys(m)[i] != key {
      var k := Placeholder(xs[i].category, i + 1);
      assert Keys(m)[i] == k;
      if k == key {
        PlaceholderNumberInjective(xs[i].category, i + 1, c, |xs| + 1);
      }
    }
  }

  lemma EnumerateSnoc(xs: seq<Match>)
    requires xs != []
    ensures Enumerate(xs) == Enumerate(xs[..|xs| - 1]) + [Entry(Placeholder(xs[|xs| - 1].category, |xs|), xs[|xs| - 1].text)]
  {
  }

  /** The keys of the map are pairwise distinct placeholders. */
  lemma EnumeratedKeysDistinct(xs: seq<Match>)
    ensures forall i, j :: 0 <= i < j < |xs| ==> Enumerate(xs)[i].key != Enumerate(xs)[j].key
  {
    forall i, j | 0 <= i < j < |xs| ensures Enumerate(xs)[i].key != Enumerate(xs)[j].key {
      if Enumerate(xs)[i].key == Enumerate(xs)[j].key {
        PlaceholderNumberInjective(xs[i].category, i + 1, xs[j].category, j + 1);
      }
    }
  }

  /** `finditer` yields non-empty, in-bounds matches; none is ever found before `i`. */
  lemma {:induction false} MatchesAreSlices(t: string, ms: Matchers, n: nat)
    requires n <= |CategoryOrder|
    ensures forall k :: 0 <= k < |MatchesUpTo(t, ms, n)| ==>
      var x := MatchesUpTo(t, ms, n)[k]; |x.text| > 0 && Occurs(t, x.text)
  {
    if n > 0 {
      MatchesAreSlices(t, ms, n - 1);
      var c := CategoryOrder[n - 1];
      var spans := Scan(MatcherFor(c, ms), t, 0);
      var found := CategoryMatches(c, t, ms);
      forall k | 0 <= k < |found| ensures Occurs(t, found[k].text) {
        assert OccursAt(t, found[k].text, spans[k].start);
      }
    }
  }

  /** Every map value is a non-empty substring of the original text. */
  lemma MapValuesFromOriginal(t: string, ms: Matchers)
    ensures forall e :: e in Redacted(t, ms).entries ==> |e.value| > 0 && Occurs(t, e.value)
  {
    MatchesAreSlices(t, ms, |CategoryOrder|);
    RedactMapEnumerates(t, AllMatches(t, ms));
  }

  /** The matches `xs` come in category order, and only categories before number `n` occur. */
  predicate Ranked(xs: seq<Match>, n: nat) {
    && (forall i, j :: 0 <= i < j < |xs| ==> Rank(xs[i].category) <= Rank(xs[j].category))
    && (forall i :: 0 <= i < |xs| ==> Rank(xs[i].category) < n)
  }

  /** Matches come category by category in the fixed order aadhaar, pan, mobile, email, name, address. */
  lemma {:induction false} CategoryOrderRespected(t: string, ms: Matchers, n: nat)
    requires n <= |CategoryOrder|
    ensures Ranked(MatchesUpTo(t, ms, n), n)
  {
    if n > 0 {
      CategoryOrderRespected(t, ms, n - 1);
      var cur := CategoryMatches(CategoryOrder[n - 1], t, ms);
      RankedAppend(MatchesUpTo(t, ms, n - 1), cur, n);
    }
  }

  /** Appending matches of category number `n - 1` to matches of earlier categories keeps the order. */
  lemma RankedAppend(prev: seq<Match>, cur: seq<Match>, n: nat)
    requires 0 < n <= |CategoryOrder| && Ranked(prev, n - 1)
    requires forall k :: 0 <= k < |cur| ==> cur[k].category == CategoryOrder[n - 1]
    ensures Ranked(prev + cur, n)
  {
    var all := prev + cur;
    RankOfOrder(n - 1);
    forall i | 0 <= i < |all| ensures Rank(all[i].category) < n {
      if i >= |prev| {
        assert all[i] == cur[i - |prev|];
      }
    }
    forall i, j | 0 <= i < j < |all| ensures Rank(all[i].category) <= Rank(all[j].category) {
      if j >= |prev| {
        assert all[j] == cur[j - |prev|];
        if i >= |prev| {
          assert all[i] == cur[i - |prev|];
        }
      }
    }
  }

  lemma RankOfOrder(k: nat)
    requires k < |CategoryOrder|
    ensures Rank(CategoryOrder[k]) == k
  {
  }

  /** Text with no match in any category comes back unchanged with an empty map. */
  lemma NoMatchesNoChange(t: string, ms: Matchers)
    requires forall c :: Scan(MatcherFor(c, ms), t, 0) == []
    ensures Redacted(t, ms) == Redaction(t, [])
  {
    NoMatchesUpTo(t, ms, |CategoryOrder|);
  }

  lemma {:induction false} NoMatchesUpTo(t: string, ms: Matchers, n: nat)
    requires n <= |CategoryOrder|
    requires forall c :: Scan(MatcherFor(c, ms), t, 0) == []
    ensures MatchesUpTo(t, ms, n) == []
  {
    if n > 0 {
      NoMatchesUpTo(t, ms, n - 1);
      assert Scan(MatcherFor(CategoryOrder[n - 1], ms), t, 0) == [];
      assert CategoryMatches(CategoryOrder[n - 1], t, ms) == [];
    }
  }

  /** The empty string has no match in any category. */
  lemma EmptyTextUnchanged(ms: Matchers)
    ensures Redacted("", ms) == Redaction("", [])
  {
    forall c ensures Scan(MatcherFor(c, ms), "", 0) == [] {
      var m := MatcherFor(c, ms);
      assert Scan(m, "", 1) == [];
    }
    NoMatchesNoChange("", ms);
  }

  /** A map none of whose keys occurs in the text leaves the text unchanged. */
  lemma {:induction false} RestoreAbsentKeys(t: string, m: seq<Entry>)
    requires forall e :: e in m ==> |e.key| > 0 && !Occurs(t, e.key)
    ensures Restored(t, m) == t
  {
    if m != [] {
      RestoreAbsentKeys(t, m[..|m| - 1]);
      ReplaceAbsent(t, m[|m| - 1].key, m[|m| - 1].value);
    }
  }
}
