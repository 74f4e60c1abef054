/**
 * Why `restore(redact(t))` gives back `t`, and why a matched original is gone from the
 * redacted text.
 *
 * The partly redacted text is viewed as a sequence of tokens: characters of the original
 * text and holes, where hole `j` stands for the `j`-th map entry. While redacting, a hole
 * renders as its placeholder; while restoring, the holes already handled render as their
 * originals and the others still as placeholders. Because the original text carries no
 * bracket and placeholders are bracketed, every `str.replace` of the two loops acts on the
 * token sequence exactly as intended.
 */
module PiiRoundTrip {
  import opened Text
  import opened PiiRedactor

  datatype Tok = Chr(c: char) | Hole(index: nat)

  function Piece(tok: Tok, strs: seq<string>): string {
    match tok
    case Chr(c) => [c]
    case Hole(m) => if m < |strs| then strs[m] else []
  }

  /** The text a token sequence stands for, hole `m` being spelled `strs[m]`. */
  function Render(toks: seq<Tok>, strs: seq<string>): string
    decreases |toks|
  {
    if toks == [] then [] else Piece(toks[0], strs) + Render(toks[1..], strs)
  }

  /** The original text: characters only. */
  function Chars(s: string): seq<Tok> {
    seq(|s|, i requires 0 <= i < |s| => Chr(s[i]))
  }

  /** The tokens start with the characters of `o`. */
  predicate Spells(toks: seq<Tok>, o: string) {
    |o| <= |toks| && forall k :: 0 <= k < |o| ==> toks[k] == Chr(o[k])
  }

  /** No suffix of the tokens starts with the characters of `o`. */
  predicate NoSpell(toks: seq<Tok>, o: string) {
    forall q :: 0 <= q <= |toks| ==> !Spells(toks[q..], o)
  }

  /** `str.replace(o, placeholder j)` on tokens: every run spelling `o` becomes hole `j`. */
  function ReplaceToks(toks: seq<Tok>, o: string, j: nat): seq<Tok>
    decreases |toks|
  {
    if toks == [] || |o| == 0 then toks
    else if Spells(toks, o) then [Hole(j)] + ReplaceToks(toks[|o|..], o, j)
    else [toks[0]] + ReplaceToks(toks[1..], o, j)
  }

  /** Characters carry no bracket and every hole is one of the first `n` entries. */
  predicate WellFormed(toks: seq<Tok>, n: nat) {
    forall k :: 0 <= k < |toks| ==> TokOk(toks[k], n)
  }

  predicate TokOk(tok: Tok, n: nat) {
    match tok
    case Chr(c) => c != '[' && c != ']'
    case Hole(m) => m < n
  }

  predicate AllKeys(strs: seq<string>) {
    forall m :: 0 <= m < |strs| ==> KeyForm(strs[m])
  }

  // ---------------------------------------------------------------------------
  // Brackets
  // ---------------------------------------------------------------------------

  lemma CloseNotIn(o: string)
    requires BracketFree(o)
    ensures ']' !in o && '[' !in o
  {
  }

  /** A key opens only at its first character and closes only at its last. */
  lemma KeyBrackets(k: string)
    requires KeyForm(k)
    ensures forall i :: 0 < i < |k| ==> k[i] != '['
    ensures forall i :: 0 <= i < |k| - 1 ==> k[i] != ']'
  {
    forall i | 0 < i < |k| - 1 ensures k[i] != '[' && k[i] != ']' {
      assert k[1..|k| - 1][i - 1] == k[i];
    }
  }

  /** A key cannot start inside another key and run past its end. */
  lemma StraddleKey(a: string, b: string, p: string)
    requires KeyForm(a) && KeyForm(p)
    ensures NoStraddle(a, b, p)
  {
    KeyBrackets(a);
    KeyBrackets(p);
    forall i: nat | i < |a| < i + |p| ensures !OccursAt(a + b, p, i) {
      if i + |p| <= |a + b| {
        var w := (a + b)[i..i + |p|];
        if i > 0 {
          assert w[0] == a[i];
        } else {
          assert w[|a| - 1] == a[|a| - 1];
        }
      }
    }
  }

  /** A key inside another key is that key. */
  lemma KeyInKey(a: string, p: string)
    requires KeyForm(a) && KeyForm(p) && Occurs(a, p)
    ensures a == p
  {
    KeyBrackets(a);
    KeyBrackets(p);
    var i: nat :| i <= |a| && OccursAt(a, p, i);
    assert a[i..i + |p|][0] == a[i];
    assert i == 0;
    assert a[..|p|][|p| - 1] == a[|p| - 1];
    assert |p| == |a|;
    assert a == a[..|p|];
  }

  /** Text without brackets contains no key. */
  lemma NoKeyInPlain(a: string, p: string)
    requires BracketFree(a) && KeyForm(p)
    ensures !Occurs(a, p)
  {
    forall i: nat | i <= |a| ensures !OccursAt(a, p, i) {
      if i + |p| <= |a| {
        assert a[i..i + |p|][0] == a[i];
      }
    }
  }

  // ---------------------------------------------------------------------------
  // Rendering
  // ---------------------------------------------------------------------------

  lemma {:induction false} RenderPlain(s: string, strs: seq<string>)
    ensures Render(Chars(s), strs) == s
    decreases |s|
  {
    if s != [] {
      assert Chars(s)[1..] == Chars(s[1..]);
      RenderPlain(s[1..], strs);
    }
  }

  lemma {:induction false} RenderSpells(toks: seq<Tok>, o: string, strs: seq<string>)
    requires Spells(toks, o)
    ensures Render(toks, strs) == o + Render(toks[|o|..], strs)
    decreases |o|
  {
    if |o| > 0 {
      var rest, o' := toks[1..], o[1..];
      SpellsTail(toks, o, strs);
      RenderSpells(rest, o', strs);
      DropDrop(toks, |o'|);
      AppendAssoc([o[0]], o', Render(toks[|o|..], strs));
      assert [o[0]] + o' == o;
    }
  }

  lemma DropDrop<T>(s: seq<T>, k: nat)
    requires k < |s|
    ensures s[1..][k..] == s[k + 1..]
  {
  }

  /** Tokens spelling `o` start with the character `o[0]`, and their tail spells the rest of `o`. */
  lemma SpellsTail(toks: seq<Tok>, o: string, strs: seq<string>)
    requires Spells(toks, o) && |o| > 0
    ensures Render(toks, strs) == [o[0]] + Render(toks[1..], strs)
    ensures Spells(toks[1..], o[1..])
  {
    var rest, o' := toks[1..], o[1..];
    assert toks[0] == Chr(o[0]);
    forall k | 0 <= k < |o'| ensures rest[k] == Chr(o'[k]) {
      assert rest[k] == toks[k + 1];
    }
  }

  /** A rendering starts with `[` exactly when the tokens start with a hole. */
  lemma RenderHead(toks: seq<Tok>, strs: seq<string>)
    requires toks != [] && AllKeys(strs) && WellFormed(toks, |strs|)
    ensures |Render(toks, strs)| > 0
    ensures toks[0].Hole? ==> Render(toks, strs)[0] == '['
    ensures toks[0].Chr? ==> Render(toks, strs)[0] == toks[0].c
  {
    var s := Render(toks, strs);
    assert s == Piece(toks[0], strs) + Render(toks[1..], strs);
    if toks[0].Hole? {
      assert s[0] == strs[toks[0].index][0];
    }
  }

  /** When the rendering starts with bracket-free `o`, the tokens spell `o`. */
  lemma {:induction false} PrefixSpells(toks: seq<Tok>, o: string, strs: seq<string>)
    requires BracketFree(o) && AllKeys(strs) && WellFormed(toks, |strs|)
    requires |o| <= |Render(toks, strs)| && Render(toks, strs)[..|o|] == o
    ensures Spells(toks, o)
    decreases |o|
  {
    if |o| > 0 {
      var s := Render(toks, strs);
      assert toks != [];
      assert WellFormed(toks[1..], |strs|);
      RenderHead(toks, strs);
      assert s[0] == s[..|o|][0] == o[0];
      var c := toks[0].c;
      assert s == [c] + Render(toks[1..], strs);
      assert s[..|o|][1..] == Render(toks[1..], strs)[..|o| - 1];
      PrefixSpells(toks[1..], o[1..], strs);
    }
  }

  // ---------------------------------------------------------------------------
  // Redacting, restoring and searching, one token at a time
  // ---------------------------------------------------------------------------

  /**
   * One redaction step: replacing `o` by placeholder `j` in the rendering is rendering
   * the token sequence where `o` became hole `j`.
   */
  lemma {:induction false} ForwardStep(toks: seq<Tok>, o: string, j: nat, strs: seq<string>, k: nat)
    requires |o| > 0 && BracketFree(o)
    requires j < |strs| && AllKeys(strs) && WellFormed(toks, j) && k == j + 1
    requires forall m :: 0 <= m < j ==> !Occurs(strs[m], o)
    ensures ReplaceAll(Render(toks, strs), o, strs[j]) == Render(ReplaceToks(toks, o, j), strs)
    ensures WellFormed(ReplaceToks(toks, o, j), k)
    decreases |toks|, 1
  {
    if toks == [] {
    } else if Spells(toks, o) {
      ForwardSpelled(toks, o, j, strs, k);
    } else {
      ForwardKept(toks, o, j, strs, k);
    }
  }

  /** The step when the tokens start by spelling `o`: that run becomes hole `j`. */
  lemma {:induction false} ForwardSpelled(toks: seq<Tok>, o: string, j: nat, strs: seq<string>, k: nat)
    requires |o| > 0 && BracketFree(o) && Spells(toks, o)
    requires j < |strs| && AllKeys(strs) && WellFormed(toks, j) && k == j + 1
    requires forall m :: 0 <= m < j ==> !Occurs(strs[m], o)
    ensures ReplaceAll(Render(toks, strs), o, strs[j]) == Render(ReplaceToks(toks, o, j), strs)
    ensures WellFormed(ReplaceToks(toks, o, j), k)
    decreases |toks|, 0
  {
    var s := Render(toks, strs);
    var rest := toks[|o|..];
    RenderSpells(toks, o, strs);
    assert WellFormed(rest, j);
    ForwardStep(rest, o, j, strs, k);
    assert s[..|o|] == o;
    assert s[|o|..] == Render(rest, strs);
    var out := [Hole(j)] + ReplaceToks(rest, o, j);
    assert out[1..] == ReplaceToks(rest, o, j);
  }

  /** The step when the tokens do not start by spelling `o`: the first token stays. */
  lemma {:induction false} ForwardKept(toks: seq<Tok>, o: string, j: nat, strs: seq<string>, k: nat)
    requires |o| > 0 && BracketFree(o) && toks != [] && !Spells(toks, o)
    requires j < |strs| && AllKeys(strs) && WellFormed(toks, j) && k == j + 1
    requires forall m :: 0 <= m < j ==> !Occurs(strs[m], o)
    ensures ReplaceAll(Render(toks, strs), o, strs[j]) == Render(ReplaceToks(toks, o, j), strs)
    ensures WellFormed(ReplaceToks(toks, o, j), k)
    decreases |toks|, 0
  {
    var s := Render(toks, strs);
    var rest := toks[1..];
    assert WellFormed(rest, j);
    ForwardStep(rest, o, j, strs, k);
    var out := [toks[0]] + ReplaceToks(rest, o, j);
    assert out[1..] == ReplaceToks(rest, o, j);
    match toks[0]
    case Chr(c) =>
      if OccursAt(s, o, 0) {
        assert s[..|o|] == o;
        PrefixSpells(toks, o, strs);
        assert false;
      }
      ReplaceCons(s, o, strs[j]);
    case Hole(m) =>
      var a := strs[m];
      CloseNotIn(o);
      NoStraddleByLast(a, Render(rest, strs), o);
      ReplaceSplit(a, Render(rest, strs), o, strs[j]);
      ReplaceAbsent(a, o, strs[j]);
  }

  /** Turning runs spelling `o` into hole `j` is invisible when hole `j` is spelled `o`. */
  lemma {:induction false} RenderUnreplace(toks: seq<Tok>, o: string, j: nat, strs: seq<string>)
    requires |o| > 0 && j < |strs| && strs[j] == o
    ensures Render(ReplaceToks(toks, o, j), strs) == Render(toks, strs)
    decreases |toks|
  {
    if toks != [] {
      if Spells(toks, o) {
        RenderSpells(toks, o, strs);
        RenderUnreplace(toks[|o|..], o, j, strs);
        var out := [Hole(j)] + ReplaceToks(toks[|o|..], o, j);
        assert out[1..] == ReplaceToks(toks[|o|..], o, j);
      } else {
        RenderUnreplace(toks[1..], o, j, strs);
        var out := [toks[0]] + ReplaceToks(toks[1..], o, j);
        assert out[1..] == ReplaceToks(toks[1..], o, j);
      }
    }
  }

  /**
   * One restoration step: replacing key `strs[j]` by `v` in the rendering is spelling
   * hole `j` as `v`, provided every other hole is spelled bracket-free or as another key.
   */
  lemma {:induction false} BackwardStep(toks: seq<Tok>, strs: seq<string>, j: nat, v: string)
    requires j < |strs| && KeyForm(strs[j]) && WellFormed(toks, |strs|)
    requires forall m :: 0 <= m < |strs| && m != j ==>
      BracketFree(strs[m]) || (KeyForm(strs[m]) && strs[m] != strs[j])
    ensures ReplaceAll(Render(toks, strs), strs[j], v) == Render(toks, strs[j := v])
    decreases |toks|
  {
    if toks != [] {
      var key := strs[j];
      var s := Render(toks, strs);
      var rest := Render(toks[1..], strs);
      assert WellFormed(toks[1..], |strs|);
      BackwardStep(toks[1..], strs, j, v);
      match toks[0]
      case Chr(c) =>
        assert s[0] == c;
        assert !OccursAt(s, key, 0);
        ReplaceCons(s, key, v);
      case Hole(m) =>
        var a := strs[m];
        if m == j {
          StraddleKey(key, rest, key);
          ReplaceSplit(key, rest, key, v);
          ReplaceWhole(key, v);
        } else if BracketFree(a) {
          CloseNotIn(a);
          NoStraddleByFirst(a, rest, key);
          NoKeyInPlain(a, key);
          ReplaceSplit(a, rest, key, v);
          ReplaceAbsent(a, key, v);
        } else {
          StraddleKey(a, rest, key);
          if Occurs(a, key) {
            KeyInKey(a, key);
            assert false;
          }
          ReplaceSplit(a, rest, key, v);
          ReplaceAbsent(a, key, v);
        }
    }
  }

  lemma NoSpellSuffix(toks: seq<Tok>, o: string, d: nat)
    requires d <= |toks| && NoSpell(toks, o)
    ensures NoSpell(toks[d..], o)
  {
    forall q | 0 <= q <= |toks[d..]| ensures !Spells(toks[d..][q..], o) {
      assert toks[d..][q..] == toks[d + q..];
    }
  }

  /** A prefix of the output made of characters only is untouched input. */
  lemma {:induction false} ReplacePrefixSame(toks: seq<Tok>, p: string, j: nat, n: nat)
    requires |p| > 0
    requires n <= |ReplaceToks(toks, p, j)|
    requires forall k :: 0 <= k < n ==> ReplaceToks(toks, p, j)[k].Chr?
    ensures n <= |toks| && ReplaceToks(toks, p, j)[..n] == toks[..n]
    decreases |toks|
  {
    var out := ReplaceToks(toks, p, j);
    if n > 0 {
      assert toks != [];
      assert out[0].Chr?;
      assert !Spells(toks, p);
      var out' := ReplaceToks(toks[1..], p, j);
      assert out == [toks[0]] + out';
      forall k | 0 <= k < n - 1 ensures out'[k].Chr? {
        assert out'[k] == out[k + 1];
      }
      ReplacePrefixSame(toks[1..], p, j, n - 1);
      assert out[..n] == [toks[0]] + out'[..n - 1];
      assert toks[..n] == [toks[0]] + toks[1..][..n - 1];
    }
  }

  /** A run in the output made of characters only was already there. */
  lemma SpellsThrough(toks: seq<Tok>, p: string, j: nat, o: string)
    requires |p| > 0
    ensures Spells(ReplaceToks(toks, p, j), o) ==> Spells(toks, o)
  {
    var out := ReplaceToks(toks, p, j);
    if Spells(out, o) {
      ReplacePrefixSame(toks, p, j, |o|);
      assert forall k :: 0 <= k < |o| ==> toks[k] == out[..|o|][k];
    }
  }

  /**
   * After replacing `p`, no run spells `p` any more; and a replacement never creates a run
   * spelling some `o` that was absent before.
   */
  lemma {:induction false} ReplaceToksNoSpell(toks: seq<Tok>, p: string, j: nat, o: string)
    requires |p| > 0 && |o| > 0 && (o == p || NoSpell(toks, o))
    ensures NoSpell(ReplaceToks(toks, p, j), o)
    decreases |toks|
  {
    var out := ReplaceToks(toks, p, j);
    if toks == [] {
    } else if Spells(toks, p) {
      var rest := toks[|p|..];
      if o != p {
        NoSpellSuffix(toks, o, |p|);
      }
      ReplaceToksNoSpell(rest, p, j, o);
      var out' := ReplaceToks(rest, p, j);
      forall q | 0 <= q <= |out| ensures !Spells(out[q..], o) {
        if q == 0 {
          assert out[0] == Hole(j);
        } else {
          assert out[q..] == out'[q - 1..];
        }
      }
    } else {
      var rest := toks[1..];
      if o != p {
        NoSpellSuffix(toks, o, 1);
      }
      ReplaceToksNoSpell(rest, p, j, o);
      var out' := ReplaceToks(rest, p, j);
      forall q | 0 <= q <= |out| ensures !Spells(out[q..], o) {
        if q == 0 {
          SpellsThrough(toks, p, j, o);
          assert out[0..] == out;
          assert toks[0..] == toks;
        } else {
          assert out[q..] == out'[q - 1..];
        }
      }
    }
  }

  /** Where no run spells `o` and no key contains it, the rendering does not contain it. */
  lemma {:induction false} NoOccurRender(toks: seq<Tok>, strs: seq<string>, o: string)
    requires |o| > 0 && BracketFree(o) && AllKeys(strs) && WellFormed(toks, |strs|)
    requires forall m :: 0 <= m < |strs| ==> !Occurs(strs[m], o)
    requires NoSpell(toks, o)
    ensures !Occurs(Render(toks, strs), o)
    decreases |toks|
  {
    if toks != [] {
      var s := Render(toks, strs);
      var b := Render(toks[1..], strs);
      NoSpellSuffix(toks, o, 1);
      assert WellFormed(toks[1..], |strs|);
      NoOccurRender(toks[1..], strs, o);
      match toks[0]
      case Chr(c) =>
        assert toks[0..] == toks;
        if OccursAt(s, o, 0) {
          assert s[..|o|] == o;
          PrefixSpells(toks, o, strs);
          assert false;
        }
        assert s[1..] == b;
        OccursCons(s, o);
      case Hole(m) =>
        CloseNotIn(o);
        NoStraddleByLast(strs[m], b, o);
        OccursAppend(strs[m], b, o);
    }
  }

  // ---------------------------------------------------------------------------
  // The whole call
  // ---------------------------------------------------------------------------

  /** The placeholders of a call: the i-th match is numbered i + 1. */
  function KeysOf(xs: seq<Match>): seq<string> {
    seq(|xs|, i requires 0 <= i < |xs| => Placeholder(xs[i].category, i + 1))
  }

  function TextsOf(xs: seq<Match>): seq<string> {
    seq(|xs|, i requires 0 <= i < |xs| => xs[i].text)
  }

  /** The map pairing each key with its value. */
  function Entries(keys: seq<string>, vals: seq<string>): seq<Entry>
    requires |keys| == |vals|
  {
    seq(|keys|, i requires 0 <= i < |keys| => Entry(keys[i], vals[i]))
  }

  /** The text after the first `n` steps of `redact`'s loops: `texts[i]` replaced by `keys[i]`. */
  function TextAfter(t: string, texts: seq<string>, keys: seq<string>, n: nat): string
    requires n <= |texts| && n <= |keys|
  {
    if n == 0 then t else ReplaceAll(TextAfter(t, texts, keys, n - 1), texts[n - 1], keys[n - 1])
  }

  /** The tokens after the first `n` steps of `redact`'s loops. */
  function TokensAfter(t: string, texts: seq<string>, n: nat): seq<Tok>
    requires n <= |texts|
  {
    if n == 0 then Chars(t) else ReplaceToks(TokensAfter(t, texts, n - 1), texts[n - 1], n - 1)
  }

  /** No matched text occurs inside a placeholder of the same call. */
  predicate OutsidePlaceholders(xs: seq<Match>) {
    forall i, j :: 0 <= i < |xs| && 0 <= j < |xs| ==> !Occurs(Placeholder(xs[j].category, j + 1), xs[i].text)
  }

  /**
   * What the proof uses about a call with matched `texts` and placeholders `keys`: the
   * texts are non-empty and bracket-free, none lies inside a placeholder, and the
   * placeholders are distinct keys.
   */
  predicate Separated(texts: seq<string>, keys: seq<string>) {
    && |texts| == |keys|
    && (forall i :: 0 <= i < |texts| ==> |texts[i]| > 0 && BracketFree(texts[i]))
    && (forall i, m :: 0 <= i < |texts| && 0 <= m < |keys| ==> !Occurs(keys[m], texts[i]))
    && AllKeys(keys)
    && (forall m, k :: 0 <= m < k < |keys| ==> keys[m] != keys[k])
  }

  /** The text after the n-th step: the n-th match replaced by the placeholder numbered n. */
  lemma RedactAllText(t: string, xs: seq<Match>, n: nat)
    requires 0 < n <= |xs|
    ensures RedactAll(t, xs[..n]).text
         == ReplaceAll(RedactAll(t, xs[..n - 1]).text, TextsOf(xs)[n - 1], KeysOf(xs)[n - 1])
  {
    var init, last := xs[..n - 1], xs[n - 1];
    var ys := xs[..n];
    assert ys[..|ys| - 1] == init && ys[|ys| - 1] == last;
    var st := RedactAll(t, init);
    assert RedactAll(t, ys) == RedactStep(st, last);
    RedactMapEnumerates(t, init);
    assert |st.entries| == n - 1;
    assert KeysOf(xs)[n - 1] == Placeholder(last.category, n);
  }

  lemma {:induction false} RedactedIsTextAfter(t: string, xs: seq<Match>, n: nat)
    requires n <= |xs|
    ensures RedactAll(t, xs[..n]).text == TextAfter(t, TextsOf(xs), KeysOf(xs), n)
  {
    if n == 0 {
      assert xs[..0] == [];
    } else {
      RedactedIsTextAfter(t, xs, n - 1);
      RedactAllText(t, xs, n);
    }
  }

  /** After `n` steps the redacted text is the rendering of the tokens with placeholders. */
  lemma {:induction false} ForwardUnfold(t: string, texts: seq<string>, keys: seq<string>, n: nat)
    requires BracketFree(t) && Separated(texts, keys) && n <= |texts|
    ensures TextAfter(t, texts, keys, n) == Render(TokensAfter(t, texts, n), keys)
    ensures WellFormed(TokensAfter(t, texts, n), n)
  {
    if n == 0 {
      RenderPlain(t, keys);
      assert WellFormed(Chars(t), 0);
    } else {
      ForwardUnfold(t, texts, keys, n - 1);
      SeparatedStep(texts, keys, n - 1);
      ForwardNext(t, texts, keys, n);
      ForwardNextWellFormed(t, texts, keys, n);
    }
  }

  /** What `Separated` gives the `j`-th step of the forward direction. */
  lemma SeparatedStep(texts: seq<string>, keys: seq<string>, j: nat)
    requires Separated(texts, keys) && j < |texts|
    ensures j < |keys| && |texts[j]| > 0 && BracketFree(texts[j]) && AllKeys(keys)
    ensures forall m :: 0 <= m < j ==> !Occurs(keys[m], texts[j])
  {
  }

  /** One step of `ForwardUnfold` for the text: from `n - 1` steps to `n`. */
  lemma ForwardNext(t: string, texts: seq<string>, keys: seq<string>, n: nat)
    requires 0 < n <= |texts| && n <= |keys|
    requires |texts[n - 1]| > 0 && BracketFree(texts[n - 1]) && AllKeys(keys)
    requires forall m :: 0 <= m < n - 1 ==> !Occurs(keys[m], texts[n - 1])
    requires TextAfter(t, texts, keys, n - 1) == Render(TokensAfter(t, texts, n - 1), keys)
    requires WellFormed(TokensAfter(t, texts, n - 1), n - 1)
    ensures TextAfter(t, texts, keys, n) == Render(TokensAfter(t, texts, n), keys)
  {
    var toks := TokensAfter(t, texts, n - 1);
    ForwardStep(toks, texts[n - 1], n - 1, keys, n);
    assert TokensAfter(t, texts, n) == ReplaceToks(toks, texts[n - 1], n - 1);
  }

  /** One step of `ForwardUnfold` for the holes: from `n - 1` steps to `n`. */
  lemma ForwardNextWellFormed(t: string, texts: seq<string>, keys: seq<string>, n: nat)
    requires 0 < n <= |texts| && n <= |keys|
    requires |texts[n - 1]| > 0 && BracketFree(texts[n - 1]) && AllKeys(keys)
    requires forall m :: 0 <= m < n - 1 ==> !Occurs(keys[m], texts[n - 1])
    requires WellFormed(TokensAfter(t, texts, n - 1), n - 1)
    ensures WellFormed(TokensAfter(t, texts, n), n)
  {
    var toks := TokensAfter(t, texts, n - 1);
    ForwardStep(toks, texts[n - 1], n - 1, keys, n);
    assert TokensAfter(t, texts, n) == ReplaceToks(toks, texts[n - 1], n - 1);
  }

  /**
   * After `n` steps of `restore` over the map built from distinct `keys`, the holes before
   * `n` are spelled with their values and the others still with their keys.
   */
  lemma {:induction false} BackwardUnfold(toks: seq<Tok>, keys: seq<string>, vals: seq<string>, n: nat)
    requires |keys| == |vals| && n <= |keys|
    requires AllKeys(keys) && WellFormed(toks, |keys|)
    requires forall m :: 0 <= m < |vals| ==> BracketFree(vals[m])
    requires forall m, k :: 0 <= m < k < |keys| ==> keys[m] != keys[k]
    ensures Restored(Render(toks, keys), Entries(keys, vals)[..n]) == Render(toks, vals[..n] + keys[n..])
  {
    var e := Entries(keys, vals);
    if n == 0 {
      assert e[..0] == [];
      assert vals[..0] + keys[0..] == keys;
    } else {
      BackwardUnfold(toks, keys, vals, n - 1);
      var strs := vals[..n - 1] + keys[n - 1..];
      assert e[..n][..n - 1] == e[..n - 1];
      assert e[..n][n - 1] == Entry(strs[n - 1], vals[n - 1]);
      forall m | 0 <= m < |strs| && m != n - 1
        ensures BracketFree(strs[m]) || (KeyForm(strs[m]) && strs[m] != strs[n - 1])
      {
        if m < n - 1 {
          assert strs[m] == vals[m];
        } else {
          assert strs[m] == keys[m];
        }
      }
      BackwardStep(toks, strs, n - 1, vals[n - 1]);
      assert strs[n - 1 := vals[n - 1]] == vals[..n] + keys[n..];
    }
  }

  /** Spelling every hole with its original gives back the original text. */
  lemma {:induction false} UnreplaceAll(t: string, texts: seq<string>, n: nat)
    requires n <= |texts|
    requires forall i :: 0 <= i < |texts| ==> |texts[i]| > 0
    ensures Render(TokensAfter(t, texts, n), texts) == t
  {
    if n == 0 {
      RenderPlain(t, texts);
    } else {
      UnreplaceAll(t, texts, n - 1);
      RenderUnreplace(TokensAfter(t, texts, n - 1), texts[n - 1], n - 1, texts);
    }
  }

  /** A match, once replaced, is never spelled again by later steps. */
  lemma {:induction false} NoSpellAfter(t: string, texts: seq<string>, i: nat, n: nat)
    requires i < n <= |texts|
    requires forall k :: 0 <= k < |texts| ==> |texts[k]| > 0
    ensures NoSpell(TokensAfter(t, texts, n), texts[i])
  {
    if n == i + 1 {
      ReplaceToksNoSpell(TokensAfter(t, texts, i), texts[i], i, texts[i]);
    } else {
      NoSpellAfter(t, texts, i, n - 1);
      ReplaceToksNoSpell(TokensAfter(t, texts, n - 1), texts[n - 1], n - 1, texts[i]);
    }
  }

  lemma SliceBracketFree(t: string, o: string)
    requires BracketFree(t) && Occurs(t, o)
    ensures BracketFree(o)
  {
    var i: nat :| i <= |t| && OccursAt(t, o, i);
    forall k | 0 <= k < |o| ensures o[k] != '[' && o[k] != ']' {
      assert o[k] == t[i..i + |o|][k] == t[i + k];
    }
  }

  lemma KeysOfDistinct(xs: seq<Match>)
    ensures AllKeys(KeysOf(xs))
    ensures forall m, k :: 0 <= m < k < |xs| ==> KeysOf(xs)[m] != KeysOf(xs)[k]
  {
    forall m | 0 <= m < |xs| ensures KeyForm(KeysOf(xs)[m]) {
      PlaceholderKeyForm(xs[m].category, m + 1);
    }
    forall m, k | 0 <= m < k < |xs| ensures KeysOf(xs)[m] != KeysOf(xs)[k] {
      if KeysOf(xs)[m] == KeysOf(xs)[k] {
        PlaceholderNumberInjective(xs[m].category, m + 1, xs[k].category, k + 1);
      }
    }
  }

  lemma MatchesSeparated(t: string, ms: Matchers)
    requires BracketFree(t) && OutsidePlaceholders(AllMatches(t, ms))
    ensures Separated(TextsOf(AllMatches(t, ms)), KeysOf(AllMatches(t, ms)))
  {
    var xs := AllMatches(t, ms);
    var texts, keys := TextsOf(xs), KeysOf(xs);
    MatchesAreSlices(t, ms, |CategoryOrder|);
    forall i | 0 <= i < |texts| ensures |texts[i]| > 0 && BracketFree(texts[i]) {
      SliceBracketFree(t, xs[i].text);
    }
    forall i, m | 0 <= i < |texts| && 0 <= m < |keys| ensures !Occurs(keys[m], texts[i]) {
      assert keys[m] == Placeholder(xs[m].category, m + 1);
    }
    KeysOfDistinct(xs);
  }

  /** The text `redact` returns, and the map it returns, in the terms of the proof. */
  lemma RedactedUnfold(t: string, ms: Matchers)
    requires BracketFree(t) && OutsidePlaceholders(AllMatches(t, ms))
    ensures var xs := AllMatches(t, ms);
      && Separated(TextsOf(xs), KeysOf(xs))
      && Redacted(t, ms).text == Render(TokensAfter(t, TextsOf(xs), |xs|), KeysOf(xs))
      && Redacted(t, ms).entries == Entries(KeysOf(xs), TextsOf(xs))
      && WellFormed(TokensAfter(t, TextsOf(xs), |xs|), |xs|)
  {
    var xs := AllMatches(t, ms);
    var texts, keys := TextsOf(xs), KeysOf(xs);
    MatchesSeparated(t, ms);
    assert xs[..|xs|] == xs;
    RedactedIsTextAfter(t, xs, |xs|);
    ForwardUnfold(t, texts, keys, |xs|);
    RedactMapEnumerates(t, xs);
    assert Enumerate(xs) == Entries(keys, texts);
  }

  /**
   * `restore(redact(t))` is `t` when the text has no square bracket and no matched text
   * occurs inside one of the call's placeholders.
   */
  lemma RoundTrip(t: string, ms: Matchers)
    requires BracketFree(t) && OutsidePlaceholders(AllMatches(t, ms))
    ensures Restored(Redacted(t, ms).text, Redacted(t, ms).entries) == t
  {
    var xs := AllMatches(t, ms);
    var keys, vals := KeysOf(xs), TextsOf(xs);
    RedactedUnfold(t, ms);
    BackwardUnfold(TokensAfter(t, vals, |xs|), keys, vals, |xs|);
    UnreplaceAll(t, vals, |xs|);
    assert Entries(keys, vals)[..|xs|] == Entries(keys, vals);
    assert vals[..|xs|] + keys[|xs|..] == vals;
  }

  /** Under the same conditions no matched original occurs in the redacted text. */
  lemma OriginalsGone(t: string, ms: Matchers)
    requires BracketFree(t) && OutsidePlaceholders(AllMatches(t, ms))
    ensures forall e :: e in Redacted(t, ms).entries ==> !Occurs(Redacted(t, ms).text, e.value)
  {
    var xs := AllMatches(t, ms);
    var keys, vals := KeysOf(xs), TextsOf(xs);
    var r := Redacted(t, ms);
    RedactedUnfold(t, ms);
    forall e | e in r.entries ensures !Occurs(r.text, e.value) {
      var i :| 0 <= i < |xs| && r.entries[i] == e;
      NoSpellAfter(t, vals, i, |xs|);
      NoOccurRender(TokensAfter(t, vals, |xs|), keys, vals[i]);
    }
  }
}
