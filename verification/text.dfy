/** Character- and string-level helpers: ASCII digits, substring tests and
    Python's `str.strip`. */
module Text {

  /** Python's `\d`, restricted to the ASCII digits. */
  predicate IsDigit(c: char) {
    '0' <= c <= '9'
  }

  predicate AllDigits(s: string) {
    forall i :: 0 <= i < |s| ==> IsDigit(s[i])
  }

  /** The value of a decimal numeral, as Python's `int()` reads it. */
  function Decimal(s: string): nat
    requires AllDigits(s)
  {
    if s == [] then 0 else 10 * Decimal(s[..|s| - 1]) + (s[|s| - 1] as int - '0' as int)
  }

  /** `p` occurs in `s` at index `i`. */
  predicate StartsAt(s: string, i: nat, p: string) {
    i + |p| <= |s| && s[i..i + |p|] == p
  }

  /** Python's substring test `p in s`. */
  predicate Contains(s: string, p: string) {
    exists i: nat | i <= |s| :: StartsAt(s, i, p)
  }

  /** Matching `a + b` at `i` is matching `a` at `i` and then `b` right after it. */
  lemma StartsAtConcat(s: string, i: nat, a: string, b: string)
    ensures StartsAt(s, i, a + b) <==> StartsAt(s, i, a) && StartsAt(s, i + |a|, b)
  {
    if StartsAt(s, i, a + b) {
      assert s[i..i + |a|] == (a + b)[..|a|];
      assert s[i + |a|..i + |a| + |b|] == (a + b)[|a|..];
    }
    if StartsAt(s, i, a) && StartsAt(s, i + |a|, b) {
      assert s[i..i + |a| + |b|] == s[i..i + |a|] + s[i + |a|..i + |a| + |b|];
    }
  }

  // ---------------------------------------------------------------------------
  // Stripping: Python's `s.strip(chars)`. The views normalise every e-mail
  // with `email.strip('"')`, and the framework's character fields trim their
  // input with `str.strip()`.
  // ---------------------------------------------------------------------------

  /** Every character of `s` is one of `cs`. */
  predicate AllIn(s: string, cs: set<char>) {
    forall i :: 0 <= i < |s| ==> s[i] in cs
  }

  /** Neither the first nor the last character of `s` is one of `cs`. */
  predicate Unpadded(s: string, cs: set<char>) {
    s == [] || (s[0] !in cs && s[|s| - 1] !in cs)
  }

  /** The first index at or after `i` whose character is not one of `cs`,
      or `|s|` when there is none: where `s.lstrip(chars)` starts. */
  function KeepFrom(s: string, cs: set<char>, i: nat): (k: nat)
    requires i <= |s|
    ensures i <= k <= |s|
    ensures forall j :: i <= j < k ==> s[j] in cs
    ensures k == |s| || s[k] !in cs
    decreases |s| - i
  {
    if i < |s| && s[i] in cs then KeepFrom(s, cs, i + 1) else i
  }

  /** The end left, not below `lo`, once the characters from `cs` just
      before `e` are dropped: where `s.rstrip(chars)` ends. */
  function KeepUntil(s: string, cs: set<char>, lo: nat, e: nat): (k: nat)
    requires lo <= e <= |s|
    ensures lo <= k <= e
    ensures forall j :: k <= j < e ==> s[j] in cs
    ensures k == lo || s[k - 1] !in cs
    decreases e
  {
    if lo < e && s[e - 1] in cs then KeepUntil(s, cs, lo, e - 1) else e
  }

  /** Python's `s.strip(chars)`: the part of `s` left once every leading and
      trailing character from `cs` is removed; interior characters are kept. */
  function Strip(s: string, cs: set<char>): (r: string)
    ensures Unpadded(r, cs)
  {
    var a := KeepFrom(s, cs, 0);
    s[a..KeepUntil(s, cs, a, |s|)]
  }

  /** `r` is `s` with the `k` characters before it and all characters after it
      removed, every removed character being one of `cs`. */
  predicate StrippedAt(s: string, cs: set<char>, k: nat, r: string) {
    k + |r| <= |s| && AllIn(s[..k], cs) && s[k..k + |r|] == r && AllIn(s[k + |r|..], cs)
  }

  /** What is removed: a run of characters from `cs` at each end, and nothing
      in between. */
  lemma StripSpec(s: string, cs: set<char>)
    ensures exists k: nat :: StrippedAt(s, cs, k, Strip(s, cs))
  {
    var a := KeepFrom(s, cs, 0);
    var b := KeepUntil(s, cs, a, |s|);
    assert AllIn(s[..a], cs) by {
      forall i | 0 <= i < a
        ensures s[..a][i] in cs
      {
        assert s[..a][i] == s[i];
      }
    }
    assert AllIn(s[b..], cs) by {
      forall i | 0 <= i < |s| - b
        ensures s[b..][i] in cs
      {
        assert s[b..][i] == s[b + i];
      }
    }
    assert StrippedAt(s, cs, a, Strip(s, cs));
  }

  /** Any index that ends a run of `cs` characters from `i` and does not
      start another is where `KeepFrom` stops. */
  lemma {:induction false} KeepFromAt(s: string, cs: set<char>, i: nat, k: nat)
    requires i <= k <= |s|
    requires forall j :: i <= j < k ==> s[j] in cs
    requires k == |s| || s[k] !in cs
    ensures KeepFrom(s, cs, i) == k
    decreases k - i
  {
    if i < k {
      KeepFromAt(s, cs, i + 1, k);
    }
  }

  /** Any index that starts a run of `cs` characters up to `e`, with no such
      character just before it, is where `KeepUntil` stops. */
  lemma {:induction false} KeepUntilAt(s: string, cs: set<char>, lo: nat, e: nat, k: nat)
    requires lo <= k <= e <= |s|
    requires forall j :: k <= j < e ==> s[j] in cs
    requires k == lo || s[k - 1] !in cs
    ensures KeepUntil(s, cs, lo, e) == k
    decreases e - k
  {
    if k < e {
      KeepUntilAt(s, cs, lo, e - 1, k);
    }
  }

  /** Reference characterisation: a core that neither starts nor ends with
      one of `cs`, surrounded by characters from `cs`, strips back to exactly
      that core. */
  lemma StripOfPadded(a: string, r: string, b: string, cs: set<char>)
    requires AllIn(a, cs) && AllIn(b, cs) && Unpadded(r, cs)
    ensures Strip(a + r + b, cs) == r
  {
    var x := a + r + b;
    forall j | 0 <= j < |a|
      ensures x[j] in cs
    {
      assert x[j] == a[j];
    }
    forall j | |a| + |r| <= j < |x|
      ensures x[j] in cs
    {
      assert x[j] == b[j - |a| - |r|];
    }
    if r == [] {
      KeepFromAt(x, cs, 0, |x|);
      assert Strip(x, cs) == x[|x|..|x|];
    } else {
      assert x[|a|] == r[0] && x[|a| + |r| - 1] == r[|r| - 1];
      KeepFromAt(x, cs, 0, |a|);
      KeepUntilAt(x, cs, |a|, |x|, |a| + |r|);
      assert x[|a|..|a| + |r|] == r;
    }
  }

  /** A string that neither starts nor ends with one of `cs` is left as it is. */
  lemma StripUnpadded(r: string, cs: set<char>)
    requires Unpadded(r, cs)
    ensures Strip(r, cs) == r
  {
    assert KeepFrom(r, cs, 0) == 0;
    assert KeepUntil(r, cs, 0, |r|) == |r|;
    assert r[0..|r|] == r;
  }

  /** Stripping twice is stripping once. */
  lemma StripIdempotent(s: string, cs: set<char>)
    ensures Strip(Strip(s, cs), cs) == Strip(s, cs)
  {
    StripUnpadded(Strip(s, cs), cs);
  }

  const Quote: char := '"'

  /** Python's `s.strip('"')`: the result neither starts nor ends with a
      quote, and a string that does neither is kept as it is. */
  function StripQuotes(s: string): (r: string)
    ensures Unpadded(r, {Quote})
    ensures |r| <= |s|
    ensures Unpadded(s, {Quote}) ==> r == s
  {
    var r := Strip(s, {Quote});
    assert Unpadded(s, {Quote}) ==> r == s by {
      if Unpadded(s, {Quote}) {
        StripUnpadded(s, {Quote});
      }
    }
    r
  }

  lemma StripQuotesExample()
    ensures StripQuotes("\"ann@example.org\"") == "ann@example.org"
  {
    var core := "ann@example.org";
    assert "\"ann@example.org\"" == [Quote] + core + [Quote];
    assert core[0] == 'a' && core[|core| - 1] == 'g';
    StripOfPadded([Quote], core, [Quote], {Quote});
  }

  /** The characters Python's `str.isspace()` accepts, which `str.strip()`
      with no argument removes. */
  predicate IsSpace(c: char) {
    || '\t' <= c <= '\r' || '\U{001C}' <= c <= ' '
    || c == '\U{0085}' || c == '\U{00A0}' || c == '\U{1680}'
    || '\U{2000}' <= c <= '\U{200A}' || c == '\U{2028}' || c == '\U{2029}'
    || c == '\U{202F}' || c == '\U{205F}' || c == '\U{3000}'
  }

  const Whitespace: set<char> := set c: char | '\t' <= c <= '\U{3000}' && IsSpace(c)

  /** Python's `s.strip()`, which the framework's `CharField` applies to its
      input (`trim_whitespace`). */
  function Trim(s: string): string {
    Strip(s, Whitespace)
  }

  /** A field is blank when nothing but whitespace is in it; the framework's
      `CharField` rejects blank input unless `allow_blank` is set. */
  predicate Blank(s: string) {
    Trim(s) == []
  }

  lemma TrimExample()
    ensures Trim(" https://example.org\n") == "https://example.org"
  {
    var core := "https://example.org";
    assert " https://example.org\n" == [' '] + core + ['\n'];
    assert ' ' in Whitespace && '\n' in Whitespace;
    assert core[0] == 'h' && core[|core| - 1] == 'g';
    assert Unpadded(core, Whitespace);
    StripOfPadded([' '], core, ['\n'], Whitespace);
  }

  lemma BlankExample()
    ensures Blank(" \t ")
  {
    var none: string := [];
    assert " \t " == [' ', '\t', ' '] + none + none;
    assert ' ' in Whitespace && '\t' in Whitespace;
    assert AllIn([' ', '\t', ' '], Whitespace);
    StripOfPadded([' ', '\t', ' '], none, none, Whitespace);
  }
}
