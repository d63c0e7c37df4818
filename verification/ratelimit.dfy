/** The rate-limit classifier shared by the `chat` and `page_summary` views:
    it decides from the text of a model failure whether the provider throttled
    the request, and if so how many seconds the caller should wait. */
module RateLimit {
  import opened Wrappers
  import opened Text

  const RateLimitMarker := "Rate limit reached"
  const TpmMarker := "tokens per minute (TPM)"
  /** The literal head of the pattern `Please try again in (\d+)m(\d+\.\d+)s`. */
  const RetryPrefix := "Please try again in "
  /** Used when the message carries no parsable cooldown. */
  const DefaultRetryAfter: nat := 600

  /** The two groups of a cooldown match: whole minutes, and the integer part
      of the fractional seconds field. */
  datatype Cooldown = Cooldown(minutes: nat, seconds: nat)

  datatype Classification =
    | RateLimited(retryAfter: nat)
    | OtherFailure(message: string)

  /** Length of the maximal run of digits starting at `i`. */
  function DigitRun(s: string, i: nat): (n: nat)
    ensures n == 0 || i + n <= |s|
    ensures forall k :: i <= k < i + n ==> IsDigit(s[k])
    ensures i + n >= |s| || !IsDigit(s[i + n])
    decreases |s| - i
  {
    if i < |s| && IsDigit(s[i]) then 1 + DigitRun(s, i + 1) else 0
  }

  /** A run of digits that stops at a non-digit (or at the end) is the maximal run. */
  lemma {:induction false} DigitRunOf(s: string, i: nat, n: nat)
    requires i + n <= |s|
    requires forall k :: i <= k < i + n ==> IsDigit(s[k])
    requires i + n == |s| || !IsDigit(s[i + n])
    ensures DigitRun(s, i) == n
    decreases n
  {
    if n > 0 {
      DigitRunOf(s, i + 1, n - 1);
    }
  }

  /** `s[j..k]` is a non-empty run of digits and `s[k]` is `c`. */
  predicate DigitsBefore(s: string, j: nat, k: nat, c: char) {
    j < k < |s| && s[k] == c && AllDigits(s[j..k])
  }

  /** A non-empty run of digits from `j` whose first non-digit is `c`: the
      index of that `c`. */
  function DigitsThen(s: string, j: nat, c: char): (r: Option<nat>)
    requires !IsDigit(c)
    ensures r.Some? ==> DigitsBefore(s, j, r.value, c)
  {
    var k := j + DigitRun(s, j);
    if k == j || k >= |s| || s[k] != c then None
    else
      assert AllDigits(s[j..k]);
      Some(k)
  }

  /** A run of digits from `j` up to a `c` at `k` is what `DigitsThen` finds. */
  lemma DigitsThenFinds(s: string, j: nat, k: nat, c: char)
    requires !IsDigit(c) && DigitsBefore(s, j, k, c)
    ensures DigitsThen(s, j, c) == Some(k)
  {
    assert forall x :: j <= x < k ==> s[x] == s[j..k][x - j];
    DigitRunOf(s, j, k - j);
  }

  /** Declarative reading of the regular expression: at index `i`, `s` spells
      the prefix, digits `d1`, `m`, digits `d2`, `.`, digits `d3`, `s`, one
      piece after the other. */
  predicate PatternAt(s: string, i: nat, d1: string, d2: string, d3: string) {
    var j := i + |RetryPrefix|;
    var k := j + |d1|;
    var l := k + 1 + |d2|;
    var e := l + 1 + |d3|;
    (&& d1 != [] && d2 != [] && d3 != []
     && AllDigits(d1) && AllDigits(d2) && AllDigits(d3)
     && StartsAt(s, i, RetryPrefix)
     && StartsAt(s, j, d1) && StartsAt(s, k, "m")
     && StartsAt(s, k + 1, d2) && StartsAt(s, l, ".")
     && StartsAt(s, l + 1, d3) && StartsAt(s, e, "s"))
  }

  /** The piecewise reading is the regular expression spelled as one string. */
  lemma PatternAtSpelling(s: string, i: nat, d1: string, d2: string, d3: string)
    requires d1 != [] && d2 != [] && d3 != []
    requires AllDigits(d1) && AllDigits(d2) && AllDigits(d3)
    ensures PatternAt(s, i, d1, d2, d3) <==> StartsAt(s, i, RetryPrefix + d1 + "m" + d2 + "." + d3 + "s")
  {
    SpellingPieces(s, i, d1, d2, d3);
  }

  /** The spelled pattern occurs at `i` exactly when its seven pieces occur
      one after the other. */
  lemma SpellingPieces(s: string, i: nat, d1: string, d2: string, d3: string)
    ensures StartsAt(s, i, RetryPrefix + d1 + "m" + d2 + "." + d3 + "s") <==>
      var j := i + |RetryPrefix|;
      var k := j + |d1|;
      var l := k + 1 + |d2|;
      && StartsAt(s, i, RetryPrefix) && StartsAt(s, j, d1) && StartsAt(s, k, "m")
      && StartsAt(s, k + 1, d2) && StartsAt(s, l, ".")
      && StartsAt(s, l + 1, d3) && StartsAt(s, l + 1 + |d3|, "s")
  {
    var p1 := RetryPrefix + d1;
    var p2 := p1 + "m";
    var p3 := p2 + d2;
    var p4 := p3 + ".";
    var p5 := p4 + d3;
    StartsAtConcat(s, i, RetryPrefix, d1);
    StartsAtConcat(s, i, p1, "m");
    StartsAtConcat(s, i, p2, d2);
    StartsAtConcat(s, i, p3, ".");
    StartsAtConcat(s, i, p4, d3);
    StartsAtConcat(s, i, p5, "s");
  }

  /** The positions of `m`, `.` and the closing `s` of an anchored match. */
  datatype Anchors = Anchors(m: nat, dot: nat, end: nat)

  /** The pattern's positions as the anchored matcher reads them at `i`. */
  predicate AnchoredAt(s: string, i: nat, a: Anchors) {
    && StartsAt(s, i, RetryPrefix)
    && DigitsBefore(s, i + |RetryPrefix|, a.m, 'm')
    && DigitsBefore(s, a.m + 1, a.dot, '.')
    && DigitsBefore(s, a.dot + 1, a.end, 's')
  }

  /** An anchored attempt of the pattern at index `i`. Every `\d+` in the
      pattern is followed by a non-digit, so backtracking never shortens a run
      and each group is a maximal run of digits. */
  function AnchorsAt(s: string, i: nat): (r: Option<Anchors>)
    ensures r.Some? ==> AnchoredAt(s, i, r.value)
  {
    if !StartsAt(s, i, RetryPrefix) then None
    else
      match DigitsThen(s, i + |RetryPrefix|, 'm')
      case None => None
      case Some(k) =>
        match DigitsThen(s, k + 1, '.')
        case None => None
        case Some(l) =>
          match DigitsThen(s, l + 1, 's')
          case None => None
          case Some(e) => Some(Anchors(k, l, e))
  }

  /** The anchored attempt follows the three digit runs it finds. */
  lemma AnchorsAtFollows(s: string, i: nat, a: Anchors)
    requires StartsAt(s, i, RetryPrefix)
    requires DigitsThen(s, i + |RetryPrefix|, 'm') == Some(a.m)
    requires DigitsThen(s, a.m + 1, '.') == Some(a.dot)
    requires DigitsThen(s, a.dot + 1, 's') == Some(a.end)
    ensures AnchorsAt(s, i) == Some(a)
  {
  }

  /** The anchored attempt finds every set of positions the pattern allows. */
  lemma AnchorsAtComplete(s: string, i: nat, a: Anchors)
    requires AnchoredAt(s, i, a)
    ensures AnchorsAt(s, i) == Some(a)
  {
    DigitsThenFinds(s, i + |RetryPrefix|, a.m, 'm');
    DigitsThenFinds(s, a.m + 1, a.dot, '.');
    DigitsThenFinds(s, a.dot + 1, a.end, 's');
    AnchorsAtFollows(s, i, a);
  }

  /** The two groups of an anchored match. */
  function MatchAt(s: string, i: nat): Option<Cooldown> {
    match AnchorsAt(s, i)
    case None => None
    case Some(a) => Some(Cooldown(Decimal(s[i + |RetryPrefix|..a.m]), Decimal(s[a.m + 1..a.dot])))
  }

  lemma StartsAtChar(s: string, k: nat, c: char)
    ensures StartsAt(s, k, [c]) <==> k < |s| && s[k] == c
  {
    if k < |s| {
      assert s[k..k + 1] == [s[k]];
    }
  }

  /** One `(\d+)` followed by the character `c`, read both ways. */
  lemma RunPiece(s: string, j: nat, d: string, c: char)
    ensures (d != [] && AllDigits(d) && StartsAt(s, j, d) && StartsAt(s, j + |d|, [c]))
        <==> (DigitsBefore(s, j, j + |d|, c) && s[j..j + |d|] == d)
  {
    StartsAtChar(s, j + |d|, c);
  }

  /** An instance of the pattern fixes the anchored positions, and its groups
      are the strings between them. */
  lemma PatternAtAnchored(s: string, i: nat, d1: string, d2: string, d3: string)
    requires PatternAt(s, i, d1, d2, d3)
    ensures var j := i + |RetryPrefix|;
      var a := Anchors(j + |d1|, j + |d1| + 1 + |d2|, j + |d1| + 1 + |d2| + 1 + |d3|);
      AnchoredAt(s, i, a) && d1 == s[j..a.m] && d2 == s[a.m + 1..a.dot]
  {
    var j := i + |RetryPrefix|;
    RunPiece(s, j, d1, 'm');
    RunPiece(s, j + |d1| + 1, d2, '.');
    RunPiece(s, j + |d1| + 1 + |d2| + 1, d3, 's');
  }

  /** The strings between anchored positions are an instance of the pattern. */
  lemma AnchoredPattern(s: string, i: nat, a: Anchors)
    requires AnchoredAt(s, i, a)
    ensures PatternAt(s, i, s[i + |RetryPrefix|..a.m], s[a.m + 1..a.dot], s[a.dot + 1..a.end])
  {
    var j := i + |RetryPrefix|;
    RunPiece(s, j, s[j..a.m], 'm');
    RunPiece(s, a.m + 1, s[a.m + 1..a.dot], '.');
    RunPiece(s, a.dot + 1, s[a.dot + 1..a.end], 's');
  }

  /** At anchored positions the match yields the strings between them. */
  lemma MatchAtAnchored(s: string, i: nat, a: Anchors)
    requires AnchoredAt(s, i, a)
    ensures MatchAt(s, i) == Some(Cooldown(Decimal(s[i + |RetryPrefix|..a.m]), Decimal(s[a.m + 1..a.dot])))
  {
    AnchorsAtComplete(s, i, a);
  }

  /** Every anchored match is an instance of the pattern and yields its first
      two groups. */
  lemma MatchAtSound(s: string, i: nat)
    requires MatchAt(s, i).Some?
    ensures exists d1, d2, d3 :: PatternAt(s, i, d1, d2, d3) && MatchAt(s, i) == Some(Cooldown(Decimal(d1), Decimal(d2)))
  {
    var a := AnchorsAt(s, i).value;
    var j := i + |RetryPrefix|;
    AnchoredPattern(s, i, a);
    assert PatternAt(s, i, s[j..a.m], s[a.m + 1..a.dot], s[a.dot + 1..a.end]);
  }

  /** Every instance of the pattern is found by the anchored attempt, with the
      groups it spells. */
  lemma MatchAtComplete(s: string, i: nat, d1: string, d2: string, d3: string)
    requires PatternAt(s, i, d1, d2, d3)
    ensures MatchAt(s, i) == Some(Cooldown(Decimal(d1), Decimal(d2)))
  {
    var j := i + |RetryPrefix|;
    var a := Anchors(j + |d1|, j + |d1| + 1 + |d2|, j + |d1| + 1 + |d2| + 1 + |d3|);
    PatternAtAnchored(s, i, d1, d2, d3);
    assert AnchoredAt(s, i, a) && d1 == s[j..a.m] && d2 == s[a.m + 1..a.dot];
    MatchAtAnchored(s, i, a);
    assert Decimal(s[j..a.m]) == Decimal(d1) && Decimal(s[a.m + 1..a.dot]) == Decimal(d2);
  }

  /** The pattern matches at `i` and at no index before it. */
  predicate LeftmostAt(s: string, i: nat) {
    i <= |s| && MatchAt(s, i).Some? && forall j :: 0 <= j < i ==> MatchAt(s, j).None?
  }

  /** `re.search`: the leftmost index at or after `from` where the pattern matches. */
  function FirstMatch(s: string, from: nat): (r: Option<nat>)
    ensures r.Some? ==> from <= r.value <= |s| && MatchAt(s, r.value).Some?
    ensures r.Some? ==> forall j :: from <= j < r.value ==> MatchAt(s, j).None?
    ensures r.None? ==> forall j :: from <= j <= |s| ==> MatchAt(s, j).None?
  {
    var p := (j: nat) => MatchAt(s, j).Some?;
    assert forall j: nat :: p(j) == MatchAt(s, j).Some?;
    FirstWhere(p, from, |s|)
  }

  /** The least index from `from` up to `hi` where `p` holds. */
  function FirstWhere(p: nat -> bool, from: nat, hi: nat): (r: Option<nat>)
    ensures r.Some? ==> from <= r.value <= hi && p(r.value)
    ensures r.Some? ==> forall j :: from <= j < r.value ==> !p(j)
    ensures r.None? ==> forall j :: from <= j <= hi ==> !p(j)
    decreases hi + 1 - from
  {
    if from > hi then None
    else if p(from) then Some(from)
    else FirstWhere(p, from + 1, hi)
  }

  /** `int(int(minutes) * 60 + float(seconds))` on the leftmost match, or
      600 when no index matches. */
  function RetryAfter(msg: string): (r: nat)
    ensures (forall j :: 0 <= j <= |msg| ==> MatchAt(msg, j).None?) ==> r == DefaultRetryAfter
    ensures forall i: nat :: LeftmostAt(msg, i) ==> r == 60 * MatchAt(msg, i).value.minutes + MatchAt(msg, i).value.seconds
  {
    match FirstMatch(msg, 0)
    case Some(k) =>
      var c := MatchAt(msg, k).value;
      assert forall i: nat :: LeftmostAt(msg, i) ==> i == k;
      60 * c.minutes + c.seconds
    case None => DefaultRetryAfter
  }

  /** With the first instance of the pattern at `i`, the retry-after is its
      minutes times sixty plus the integer part of its seconds. */
  lemma RetryAfterFirstPattern(msg: string, i: nat, d1: string, d2: string, d3: string)
    requires PatternAt(msg, i, d1, d2, d3)
    requires forall j: nat, e1, e2, e3 :: j < i ==> !PatternAt(msg, j, e1, e2, e3)
    ensures RetryAfter(msg) == 60 * Decimal(d1) + Decimal(d2)
  {
    MatchAtComplete(msg, i, d1, d2, d3);
    var f := FirstMatch(msg, 0);
    assert f.Some? && f.value <= i;
    if f.value < i {
      MatchAtSound(msg, f.value);
      assert false;
    }
    assert f == Some(i);
  }

  /** Without any instance of the pattern the retry-after is the 600-second default. */
  lemma RetryAfterNoPattern(msg: string)
    requires forall j: nat, e1, e2, e3 :: !PatternAt(msg, j, e1, e2, e3)
    ensures RetryAfter(msg) == DefaultRetryAfter
  {
    var f := FirstMatch(msg, 0);
    if f.Some? {
      MatchAtSound(msg, f.value);
      assert false;
    }
  }

  predicate IsRateLimitMessage(msg: string) {
    Contains(msg, RateLimitMarker) && Contains(msg, TpmMarker)
  }

  /** A failure is throttling exactly when its text carries both markers; any
      other failure keeps its raw message. */
  function Classify(msg: string): (c: Classification)
    ensures c.RateLimited? <==> Contains(msg, RateLimitMarker) && Contains(msg, TpmMarker)
    ensures c.RateLimited? ==> c.retryAfter == RetryAfter(msg)
    ensures c.OtherFailure? ==> c.message == msg
  {
    if IsRateLimitMessage(msg) then RateLimited(RetryAfter(msg)) else OtherFailure(msg)
  }

  // ---------------------------------------------------------------------------
  // Worked examples. Every message that carries the TPM marker has a `P` in
  // it before the retry phrase, so the examples are assembled from a head
  // whose only `P` is not followed by `l`, then the retry phrase.
  // ---------------------------------------------------------------------------

  /** The retry phrase can only start at a `P` followed by an `l`. */
  lemma NotRetryPrefixAt(s: string, j: nat)
    requires j + 1 >= |s| || s[j] != 'P' || s[j + 1] != 'l'
    ensures !StartsAt(s, j, RetryPrefix)
  {
    if j + |RetryPrefix| <= |s| {
      assert s[j..j + |RetryPrefix|][0] == s[j] && s[j..j + |RetryPrefix|][1] == s[j + 1];
    }
  }

  /** The retry phrase does not start inside `h1 + "P" + h2`. */
  lemma NoRetryPrefixInHead(h1: string, h2: string, tail: string)
    requires 'P' !in h1 && 'P' !in h2 && h2 != [] && h2[0] != 'l'
    ensures forall j: nat :: j < |h1| + 1 + |h2| ==> !StartsAt(h1 + "P" + h2 + tail, j, RetryPrefix)
  {
    var s := h1 + "P" + h2 + tail;
    forall j: nat | j < |h1| + 1 + |h2|
      ensures !StartsAt(s, j, RetryPrefix)
    {
      if j < |h1| {
        assert s[j] == h1[j];
      } else if j == |h1| {
        assert s[j + 1] == h2[0];
      } else {
        assert s[j] == h2[j - |h1| - 1];
      }
      NotRetryPrefixAt(s, j);
    }
  }

  /** `b` occurs in `a + b + c` right after `a`. */
  lemma StartsAtMiddle(a: string, b: string, c: string)
    ensures StartsAt(a + b + c, |a|, b)
  {
    assert (a + b + c)[|a|..|a| + |b|] == b;
  }

  const ExampleHead := RateLimitMarker + " on " + TpmMarker + ". "

  /** Both markers occur in the example head. */
  lemma ExampleHeadMarkers(tail: string)
    ensures IsRateLimitMessage(ExampleHead + tail)
  {
    var s := ExampleHead + tail;
    assert s == [] + RateLimitMarker + (" on " + TpmMarker + ". " + tail);
    StartsAtMiddle([], RateLimitMarker, " on " + TpmMarker + ". " + tail);
    assert s == RateLimitMarker + " on " + TpmMarker + (". " + tail);
    StartsAtMiddle(RateLimitMarker + " on ", TpmMarker, ". " + tail);
  }

  /** The retry phrase does not start inside the example head. */
  lemma ExampleHeadNoRetry(tail: string)
    ensures forall j: nat :: j < |ExampleHead| ==> !StartsAt(ExampleHead + tail, j, RetryPrefix)
  {
    ExampleHeadSpelled();
    NoRetryPrefixInHead("Rate limit reached on tokens per minute (T", "M). ", tail);
  }

  /** The example head, split around its only `P`. */
  lemma ExampleHeadSpelled()
    ensures ExampleHead == "Rate limit reached on tokens per minute (T" + "P" + "M). "
  {
  }

  /** A throttling message with a parsable cooldown: 2 minutes and 30.5
      seconds give a retry-after of 150 seconds. */
  lemma ClassifyParsedCooldown()
    ensures Classify(ExampleHead + "Please try again in 2m30.5s") == RateLimited(150)
  {
    var tail := "Please try again in 2m30.5s";
    var s := ExampleHead + tail;
    var i := |ExampleHead|;
    ExampleHeadMarkers(tail);
    ExampleHeadNoRetry(tail);
    assert s[i..] == tail;
    PatternAtSpelling(s, i, "2", "30", "5");
    assert Decimal("2") == 2 && Decimal("30") == 30;
    RetryAfterFirstPattern(s, i, "2", "30", "5");
  }

  /** Seconds written without a decimal point do not match the pattern, so
      the retry-after falls back to the 600-second default. */
  lemma ClassifyUnparsedCooldown()
    ensures Classify(ExampleHead + "Please try again in 2m30s") == RateLimited(DefaultRetryAfter)
  {
    var tail := "Please try again in 2m30s";
    var s := ExampleHead + tail;
    var i := |ExampleHead|;
    ExampleHeadMarkers(tail);
    ExampleHeadNoRetry(tail);
    assert s[i..] == tail;
    assert MatchAt(s, i).None?;
    forall j: nat | i < j
      ensures MatchAt(s, j).None?
    {
      if j + 1 < |s| {
        assert s[j] == tail[j - i];
      }
      NotRetryPrefixAt(s, j);
    }
    assert FirstMatch(s, 0).None?;
  }

  /** A message without the throttling markers is passed through unchanged. */
  lemma ClassifyUnrelated()
    ensures Classify("connection reset by peer") == OtherFailure("connection reset by peer")
  {
    var s := "connection reset by peer";
    assert 'R' !in s;
    forall i: nat | i <= |s|
      ensures !StartsAt(s, i, RateLimitMarker)
    {
      if i + |RateLimitMarker| <= |s| {
        assert s[i..i + |RateLimitMarker|][0] == s[i];
      }
    }
  }
}
