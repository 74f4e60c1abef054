/**
 * The string operations the redaction layer and the orchestrator are built from:
 * Python's `str.replace` (replace every occurrence, left to right, without overlap),
 * `str(n)` for a natural number, and `sep.join(parts)`.
 */
module Text {

  /** `p` occurs in `s` at index `i`. */
  predicate OccursAt(s: string, p: string, i: nat) {
    i + |p| <= |s| && s[i..i + |p|] == p
  }

  /** `p` is a substring of `s` (Python's `p in s`). */
  predicate Occurs(s: string, p: string) {
    exists i: nat | i <= |s| :: OccursAt(s, p, i)
  }

  predicate BracketFree(s: string) {
    forall i :: 0 <= i < |s| ==> s[i] != '[' && s[i] != ']'
  }

  /** `"".replace` inserts the replacement before every character and at the end. */
  function InsertEverywhere(s: string, r: string): string {
    if s == [] then r else r + [s[0]] + InsertEverywhere(s[1..], r)
  }

  /**
   * `s.replace(p, r)`: scan from the left; at each position where `p` starts,
   * emit `r` and skip `p`, otherwise emit the character and move on.
   */
  function ReplaceAll(s: string, p: string, r: string): string
    decreases |s|
  {
    if |p| == 0 then InsertEverywhere(s, r)
    else if |s| < |p| then s
    else if s[..|p|] == p then r + ReplaceAll(s[|p|..], p, r)
    else [s[0]] + ReplaceAll(s[1..], p, r)
  }

  /** Replacing a pattern that does not occur changes nothing. */
  lemma {:induction false} ReplaceAbsent(s: string, p: string, r: string)
    requires |p| > 0
    requires !Occurs(s, p)
    ensures ReplaceAll(s, p, r) == s
    decreases |s|
  {
    if |s| < |p| {
    } else {
      assert !OccursAt(s, p, 0);
      assert !Occurs(s[1..], p) by {
        forall i: nat | OccursAt(s[1..], p, i) ensures false {
          assert s[1..][i..i + |p|] == s[i + 1..i + 1 + |p|];
          assert OccursAt(s, p, i + 1);
        }
      }
      ReplaceAbsent(s[1..], p, r);
    }
  }

  /** Replacing a whole string by something else yields that something else. */
  lemma ReplaceWhole(p: string, r: string)
    requires |p| > 0
    ensures ReplaceAll(p, p, r) == r
  {
    assert p[..|p|] == p;
    assert p[|p|..] == [];
  }

  /** No occurrence of `p` in `a + b` starts inside `a` and ends inside `b`. */
  predicate NoStraddle(a: string, b: string, p: string) {
    forall i: nat :: i < |a| < i + |p| ==> !OccursAt(a + b, p, i)
  }

  /** Dropping a prefix of `a` keeps the seam free of straddling occurrences. */
  lemma NoStraddleDrop(a: string, b: string, p: string, k: nat)
    requires k <= |a|
    requires NoStraddle(a, b, p)
    ensures NoStraddle(a[k..], b, p)
  {
    var a' := a[k..];
    var s, s' := a + b, a' + b;
    assert s' == s[k..];
    forall i: nat | i < |a'| < i + |p| ensures !OccursAt(s', p, i) {
      if OccursAt(s', p, i) {
        var j: nat := i + k;
        assert j < |a| < j + |p|;
        assert s[j..j + |p|] == s'[i..i + |p|];
        assert OccursAt(s, p, j);
      }
    }
  }

  /** When no occurrence straddles the seam, `replace` works on the two halves separately. */
  lemma {:induction false} ReplaceSplit(a: string, b: string, p: string, r: string)
    requires |p| > 0
    requires NoStraddle(a, b, p)
    ensures ReplaceAll(a + b, p, r) == ReplaceAll(a, p, r) + ReplaceAll(b, p, r)
    decreases |a|
  {
    var s := a + b;
    if |a| == 0 {
      assert s == b;
    } else if |s| < |p| {
    } else if s[..|p|] == p {
      assert OccursAt(s, p, 0);
      assert a[..|p|] == p;
      assert s[|p|..] == a[|p|..] + b;
      NoStraddleDrop(a, b, p, |p|);
      ReplaceSplit(a[|p|..], b, p, r);
    } else {
      assert s[1..] == a[1..] + b;
      NoStraddleDrop(a, b, p, 1);
      ReplaceSplit(a[1..], b, p, r);
      if |a| >= |p| {
        assert a[..|p|] == s[..|p|];
      }
    }
  }

  /** Where `p` does not start at the front, `replace` keeps the first character and moves on. */
  lemma ReplaceCons(s: string, p: string, r: string)
    requires |p| > 0 && |s| > 0 && !OccursAt(s, p, 0)
    ensures ReplaceAll(s, p, r) == [s[0]] + ReplaceAll(s[1..], p, r)
  {
    if |s| < |p| {
      assert ReplaceAll(s[1..], p, r) == s[1..];
    } else {
      assert s[..|p|] != p;
    }
  }

  /** An occurrence not at the front is an occurrence in the tail. */
  lemma OccursCons(s: string, p: string)
    requires |s| > 0 && !OccursAt(s, p, 0) && !Occurs(s[1..], p)
    ensures !Occurs(s, p)
  {
    if Occurs(s, p) {
      var i: nat :| i <= |s| && OccursAt(s, p, i);
      assert i > 0;
      assert s[1..][i - 1..i - 1 + |p|] == s[i..i + |p|];
      assert OccursAt(s[1..], p, i - 1);
      assert false;
    }
  }

  /** An occurrence in `a + b` lies in `a`, in `b`, or across the seam. */
  lemma OccursAppend(a: string, b: string, p: string)
    requires !Occurs(a, p) && !Occurs(b, p) && NoStraddle(a, b, p)
    ensures !Occurs(a + b, p)
  {
    if Occurs(a + b, p) {
      var i: nat :| i <= |a + b| && OccursAt(a + b, p, i);
      if i + |p| <= |a| {
        assert (a + b)[i..i + |p|] == a[i..i + |p|];
        assert OccursAt(a, p, i);
      } else if i >= |a| {
        assert (a + b)[i..i + |p|] == b[i - |a|..i - |a| + |p|];
        assert OccursAt(b, p, i - |a|);
      }
      assert false;
    }
  }

  /** No straddling occurrence when the last character of `a` is absent from `p`. */
  lemma NoStraddleByLast(a: string, b: string, p: string)
    requires |a| > 0 && a[|a| - 1] !in p
    ensures NoStraddle(a, b, p)
  {
    forall i: nat | i < |a| < i + |p| ensures !OccursAt(a + b, p, i) {
      assert (a + b)[|a| - 1] == a[|a| - 1];
    }
  }

  /** No straddling occurrence when the first character of `p` is absent from `a`. */
  lemma NoStraddleByFirst(a: string, b: string, p: string)
    requires |p| > 0 && p[0] !in a
    ensures NoStraddle(a, b, p)
  {
    forall i: nat | i < |a| < i + |p| ensures !OccursAt(a + b, p, i) {
      assert (a + b)[i] == a[i];
    }
  }

  function DigitChar(d: nat): char
    requires d < 10
  {
    (48 + d) as char
  }

  /** Python's `str(n)` for a natural number: its decimal digits, no leading zeros. */
  function DecimalString(n: nat): (s: string)
    ensures |s| >= 1
    ensures forall i :: 0 <= i < |s| ==> '0' <= s[i] <= '9'
    ensures |s| == 1 <==> n < 10
    decreases n
  {
    if n < 10 then [DigitChar(n)] else DecimalString(n / 10) + [DigitChar(n % 10)]
  }

  /** Distinct numbers print differently. */
  lemma {:induction false} DecimalStringInjective(a: nat, b: nat)
    requires DecimalString(a) == DecimalString(b)
    ensures a == b
    decreases a
  {
    if a < 10 || b < 10 {
      assert a < 10 && b < 10;
      assert DigitChar(a) == DigitChar(b);
    } else {
      var sa, sb := DecimalString(a), DecimalString(b);
      assert sa[|sa| - 1] == DigitChar(a % 10);
      assert sb[|sb| - 1] == DigitChar(b % 10);
      assert a % 10 == b % 10;
      assert sa[..|sa| - 1] == DecimalString(a / 10);
      assert sb[..|sb| - 1] == DecimalString(b / 10);
      DecimalStringInjective(a / 10, b / 10);
    }
  }

  /** Python's `sep.join(parts)`. */
  function Join(parts: seq<string>, sep: string): (r: string)
    ensures |parts| == 1 ==> r == parts[0]
    ensures |parts| > 0 && parts[0] != [] ==> r != []
  {
    if parts == [] then []
    else if |parts| == 1 then parts[0]
    else parts[0] + sep + Join(parts[1..], sep)
  }

  /** `sep.join(parts)` ends with the last part. */
  lemma {:induction false} JoinEndsWithLast(parts: seq<string>, sep: string)
    requires |parts| > 0
    ensures |parts[|parts| - 1]| <= |Join(parts, sep)|
    ensures Join(parts, sep)[|Join(parts, sep)| - |parts[|parts| - 1]|..] == parts[|parts| - 1]
  {
    if |parts| > 1 {
      var rest := Join(parts[1..], sep);
      var last := parts[|parts| - 1];
      JoinEndsWithLast(parts[1..], sep);
      assert parts[1..][|parts[1..]| - 1] == last;
      var r := parts[0] + sep + rest;
      assert r[|r| - |last|..] == rest[|rest| - |last|..];
    }
  }

  /** Concatenation regroups freely; stated once so that callers can name the instance they need. */
  lemma AppendAssoc<T>(a: seq<T>, b: seq<T>, c: seq<T>)
    ensures a + b + c == a + (b + c)
  {
  }

  /** `a` followed by the first `k + 1` items of `b`: its last item is `b[k]`, and the rest is `a + b[..k]`. */
  lemma SnocSplit<T>(a: seq<T>, b: seq<T>, k: nat)
    requires k < |b|
    ensures a + b[..k + 1] != []
    ensures (a + b[..k + 1])[..|a| + k] == a + b[..k]
    ensures (a + b[..k + 1])[|a| + k] == b[k]
  {
    assert (a + b[..k + 1])[..|a| + k] == a + b[..k];
  }
}
