/** The text scans of the two rate updaters: the digit-group pattern
    `(\d+)[,.](\d+)` (or `(\d+),(\d+)`) as a leftmost regular-expression search
    finds it, the same pattern behind a keyword and a lazy `.*?` gap as
    JavaScript's `String.prototype.match` finds it, the word patterns both
    scripts look for, and the exact value `int.frac` rebuilt from the groups. */
module Scan {
  import opened Wrappers

  predicate IsDigit(c: char) { '0' <= c <= '9' }

  predicate AllDigits(s: string) { forall k :: 0 <= k < |s| ==> IsDigit(s[k]) }

  /** The separator class between the two groups: `,` alone or `[,.]`. */
  datatype Separators = CommaOnly | CommaOrDot

  predicate IsSeparator(seps: Separators, c: char) {
    c == ',' || (seps == CommaOrDot && c == '.')
  }

  /** One match: where it starts, the first group, the separator, the second group. */
  datatype Match = Match(start: nat, whole: string, sep: char, frac: string)

  predicate WellFormed(m: Match) {
    |m.whole| >= 1 && |m.frac| >= 1 && AllDigits(m.whole) && AllDigits(m.frac)
  }

  /** Reference semantics of the pattern: read from position `q`, `s` spells
      `a` digits, one separator and `b` digits. */
  ghost predicate Candidate(s: string, seps: Separators, q: int, a: int, b: int) {
    0 <= q && 1 <= a && 1 <= b && q + a + 1 + b <= |s| &&
    (forall k :: q <= k < q + a ==> IsDigit(s[k])) &&
    IsSeparator(seps, s[q + a]) &&
    (forall k :: q + a + 1 <= k < q + a + 1 + b ==> IsDigit(s[k]))
  }

  /** The match object a candidate yields. */
  function MatchOf(s: string, q: nat, a: nat, b: nat): Match
    requires q + a + 1 + b <= |s|
  {
    Match(q, s[q..q + a], s[q + a], s[q + a + 1..q + a + 1 + b])
  }

  /** End of the run of digits that starts at `i`. */
  function RunEnd(s: string, i: nat): (j: nat)
    requires i <= |s|
    ensures i <= j <= |s|
    ensures forall k :: i <= k < j ==> IsDigit(s[k])
    ensures j == |s| || !IsDigit(s[j])
    decreases |s| - i
  {
    if i == |s| || !IsDigit(s[i]) then i else RunEnd(s, i + 1)
  }

  /** The pattern tried at one start position: `\d+` greedily, the separator,
      `\d+` greedily. Backtracking into the first group never helps, because
      every shorter first group is followed by a digit, not a separator. */
  function MatchAt(s: string, seps: Separators, q: nat): (r: Option<Match>)
    requires q <= |s|
    ensures r.Some? ==> r.value.start == q && WellFormed(r.value)
    ensures r.Some? ==> Candidate(s, seps, q, |r.value.whole|, |r.value.frac|)
    ensures r.Some? ==> r.value == MatchOf(s, q, |r.value.whole|, |r.value.frac|)
  {
    var j := RunEnd(s, q);
    if j == q || j + 1 >= |s| || !IsSeparator(seps, s[j]) || !IsDigit(s[j + 1]) then None
    else
      var e := RunEnd(s, j + 1);
      Some(Match(q, s[q..j], s[j], s[j + 1..e]))
  }

  /** At a fixed start the match found is the greedy one: its first group is
      the only possible first group, its second group the longest possible;
      and no match is found only where no candidate starts. */
  lemma MatchAtIsGreedy(s: string, seps: Separators, q: nat)
    requires q <= |s|
    ensures MatchAt(s, seps, q).None? <==> forall a, b :: !Candidate(s, seps, q, a, b)
    ensures MatchAt(s, seps, q).Some? ==>
      forall a, b :: Candidate(s, seps, q, a, b) ==>
        a == |MatchAt(s, seps, q).value.whole| && b <= |MatchAt(s, seps, q).value.frac|
  {
    var j := RunEnd(s, q);
    forall a, b | Candidate(s, seps, q, a, b)
      ensures j == q + a
      ensures MatchAt(s, seps, q).Some?
      ensures b <= |MatchAt(s, seps, q).value.frac|
    {
      assert !IsDigit(s[q + a]);
      var e := RunEnd(s, j + 1);
    }
  }

  /** A match's second group is maximal: it ends at the end of the text or
      before a non-digit. */
  lemma MatchAtFracIsMaximal(s: string, seps: Separators, q: nat)
    requires q <= |s| && MatchAt(s, seps, q).Some?
    ensures var m := MatchAt(s, seps, q).value;
      var e := q + |m.whole| + 1 + |m.frac|;
      e == |s| || !IsDigit(s[e])
  {
    var m := MatchAt(s, seps, q).value;
    var e := q + |m.whole| + 1 + |m.frac|;
    if e < |s| && IsDigit(s[e]) {
      assert Candidate(s, seps, q, |m.whole|, |m.frac| + 1);
      MatchAtIsGreedy(s, seps, q);
    }
  }

  /** Python's `re.search` from position `p`: the leftmost start at which the
      pattern matches. */
  function SearchFrom(s: string, seps: Separators, p: nat): (r: Option<Match>)
    requires p <= |s|
    ensures r.Some? ==> p <= r.value.start <= |s| && MatchAt(s, seps, r.value.start) == r
    ensures forall q :: p <= q <= |s| && (r.None? || q < r.value.start) ==> MatchAt(s, seps, q).None?
    decreases |s| - p
  {
    match MatchAt(s, seps, p)
    case Some(m) => Some(m)
    case None => if p == |s| then None else SearchFrom(s, seps, p + 1)
  }

  function Search(s: string, seps: Separators): Option<Match> {
    SearchFrom(s, seps, 0)
  }

  /** The search agrees with the pattern's meaning: it finds a candidate,
      no candidate starts further left, and it finds nothing only when no
      candidate exists anywhere. */
  lemma SearchIsLeftmost(s: string, seps: Separators)
    ensures Search(s, seps).None? <==> forall q, a, b :: !Candidate(s, seps, q, a, b)
    ensures Search(s, seps).Some? ==>
      var m := Search(s, seps).value;
      Candidate(s, seps, m.start, |m.whole|, |m.frac|) &&
      m == MatchOf(s, m.start, |m.whole|, |m.frac|) &&
      (forall b :: Candidate(s, seps, m.start, |m.whole|, b) ==> b <= |m.frac|) &&
      forall q, a, b :: Candidate(s, seps, q, a, b) ==> m.start <= q
  {
    forall q, a, b | Candidate(s, seps, q, a, b)
      ensures Search(s, seps).Some? && Search(s, seps).value.start <= q
    {
      MatchAtIsGreedy(s, seps, q);
    }
    if Search(s, seps).Some? {
      MatchAtIsGreedy(s, seps, Search(s, seps).value.start);
    }
  }

  /** The first group of the match found is a whole run of digits: the text
      does not have a digit just before it. */
  lemma SearchWholeIsDigitRun(s: string, seps: Separators)
    requires Search(s, seps).Some?
    ensures var m := Search(s, seps).value; m.start == 0 || !IsDigit(s[m.start - 1])
  {
    var m := Search(s, seps).value;
    if m.start > 0 && IsDigit(s[m.start - 1]) {
      assert Candidate(s, seps, m.start - 1, |m.whole| + 1, |m.frac|);
      SearchIsLeftmost(s, seps);
    }
  }

  function Pow10(n: nat): (p: nat)
    ensures p >= 1
  {
    if n == 0 then 1 else 10 * Pow10(n - 1)
  }

  function DigitValue(c: char): nat
    requires IsDigit(c)
  {
    c as int - '0' as int
  }

  /** The number a string of decimal digits denotes. */
  function DigitsValue(ds: string): (n: nat)
    requires AllDigits(ds)
    ensures n < Pow10(|ds|)
  {
    if ds == [] then 0
    else
      var init := ds[..|ds| - 1];
      assert AllDigits(init);
      var n0 := DigitsValue(init);
      assert n0 <= Pow10(|init|) - 1;
      assert n0 * 10 <= Pow10(|init|) * 10 - 10;
      n0 * 10 + DigitValue(ds[|ds| - 1])
  }

  /** `float(f"{g1}.{g2}")` and `parseFloat(`${g1}.${g2}`)` without rounding:
      the exact rational g1 + g2 / 10^|g2|. */
  function Value(m: Match): real
    requires WellFormed(m)
  {
    DigitsValue(m.whole) as real + DigitsValue(m.frac) as real / Pow10(|m.frac|) as real
  }

  /** The second group only adds a fraction: the value lies in [g1, g1 + 1). */
  lemma ValueBounds(m: Match)
    requires WellFormed(m)
    ensures DigitsValue(m.whole) as real <= Value(m) < DigitsValue(m.whole) as real + 1.0
  {
    var w := DigitsValue(m.whole) as real;
    var f := DigitsValue(m.frac) as real;
    var p := Pow10(|m.frac|) as real;
    QuotientBelowOne(f, p);
    assert Value(m) == w + f / p;
  }

  lemma QuotientBelowOne(f: real, p: real)
    requires 0.0 <= f < p
    ensures 0.0 <= f / p < 1.0
  {
  }

  // Word patterns.

  /** Case folding for the letters the patterns use: ASCII capitals and Ó
      map to their lower-case forms, every other character to itself. */
  function Lower(c: char): char {
    if 'A' <= c <= 'Z' then (c as int + 32) as char
    else if c == '\U{00D3}' then '\U{00F3}'
    else c
  }

  /** `d[oó]lar` compared without regard to case, at position `i`. */
  predicate DolarAt(s: string, i: nat) {
    i + 5 <= |s| && Lower(s[i]) == 'd' && (Lower(s[i + 1]) == 'o' || Lower(s[i + 1]) == '\U{00F3}') &&
    Lower(s[i + 2]) == 'l' && Lower(s[i + 3]) == 'a' && Lower(s[i + 4]) == 'r'
  }

  /** `USD` compared without regard to case, at position `i`. */
  predicate UsdAt(s: string, i: nat) {
    i + 3 <= |s| && Lower(s[i]) == 'u' && Lower(s[i + 1]) == 's' && Lower(s[i + 2]) == 'd'
  }

  /** The literal substring test `sub in t`. */
  predicate Contains(t: string, sub: string) {
    exists i :: 0 <= i <= |t| && OccursAt(t, sub, i)
  }

  predicate OccursAt(t: string, sub: string, i: nat) {
    i + |sub| <= |t| && t[i..i + |sub|] == sub
  }

  /** Python's `re.search` of `[Dd][oó]lar` with IGNORECASE succeeds. */
  predicate MentionsDolar(t: string) {
    exists i :: 0 <= i <= |t| && DolarAt(t, i)
  }

  // JavaScript's `/KW.*?(\d+)[,.](\d+)/i`.

  /** The characters `.` does not match in a JavaScript regular expression. */
  predicate IsLineTerminator(c: char) {
    c == '\n' || c == '\r' || c == '\U{2028}' || c == '\U{2029}'
  }

  /** `.*?` can span `s[p..q]`. */
  ghost predicate Gap(s: string, p: int, q: int) {
    0 <= p <= q <= |s| && forall k :: p <= k < q ==> !IsLineTerminator(s[k])
  }

  /** The lazy `.*?(\d+)[,.](\d+)` from position `p`: the nearest start that
      matches, not crossing a line terminator. */
  function LazyMatchFrom(s: string, p: nat): (r: Option<Match>)
    requires p <= |s|
    ensures r.Some? ==> (p <= r.value.start <= |s| && Gap(s, p, r.value.start) &&
                         MatchAt(s, CommaOrDot, r.value.start) == r)
    ensures forall q :: p <= q <= |s| && Gap(s, p, q) && (r.None? || q < r.value.start) ==>
      MatchAt(s, CommaOrDot, q).None?
    decreases |s| - p
  {
    match MatchAt(s, CommaOrDot, p)
    case Some(m) => Some(m)
    case None =>
      if p == |s| || IsLineTerminator(s[p]) then None else LazyMatchFrom(s, p + 1)
  }

  datatype Keyword = Usd | Dolar

  function KeywordLength(kw: Keyword): nat {
    match kw
    case Usd => 3
    case Dolar => 5
  }

  predicate KeywordAt(kw: Keyword, s: string, i: nat) {
    i + KeywordLength(kw) <= |s| &&
    match kw
    case Usd => UsdAt(s, i)
    case Dolar => DolarAt(s, i)
  }

  /** A match of the whole keyword pattern: where the keyword starts, and the groups. */
  datatype KeywordMatch = KeywordMatch(at: nat, groups: Match)

  /** The keyword matches at `j` and the lazy tail matches after it. */
  predicate TailMatches(kw: Keyword, s: string, j: nat) {
    KeywordAt(kw, s, j) && LazyMatchFrom(s, j + KeywordLength(kw)).Some?
  }

  /** Where `String.prototype.match` of `/KW.*?(\d+)[,.](\d+)/i`, tried from
      position `i`, finds its keyword: the leftmost one after which the lazy
      tail matches. */
  function KeywordStartFrom(kw: Keyword, s: string, i: nat): (r: Option<nat>)
    requires i <= |s|
    ensures r.Some? ==> i <= r.value <= |s| && TailMatches(kw, s, r.value)
    ensures forall j :: i <= j <= |s| && (r.None? || j < r.value) ==> !TailMatches(kw, s, j)
    decreases |s| - i
  {
    if TailMatches(kw, s, i) then Some(i)
    else if i == |s| then None
    else KeywordStartFrom(kw, s, i + 1)
  }

  /** The whole match: the keyword's position and the groups after it. */
  function KeywordSearch(kw: Keyword, s: string): (r: Option<KeywordMatch>)
    ensures r.Some? ==> WellFormed(r.value.groups)
  {
    match KeywordStartFrom(kw, s, 0)
    case None => None
    case Some(at) => Some(KeywordMatch(at, LazyMatchFrom(s, at + KeywordLength(kw)).value))
  }

  /** Reference semantics of `/KW.*?(\d+)[,.](\d+)/`: the keyword at `i`, a
      gap free of line terminators up to `q`, and a candidate at `q`. */
  ghost predicate KeywordCandidate(kw: Keyword, s: string, i: int, q: int, a: int, b: int) {
    0 <= i && KeywordAt(kw, s, i) && i + KeywordLength(kw) <= q &&
    Gap(s, i + KeywordLength(kw), q) && Candidate(s, CommaOrDot, q, a, b)
  }

  /** The keyword search agrees with the regular expression's order of
      preference: leftmost keyword first, then the shortest gap, then the
      greedy groups; and it finds nothing only when no candidate exists. */
  lemma KeywordSearchIsLeftmostLazy(kw: Keyword, s: string)
    ensures KeywordSearch(kw, s).None? <==> forall i, q, a, b :: !KeywordCandidate(kw, s, i, q, a, b)
    ensures KeywordSearch(kw, s).Some? ==>
      var r := KeywordSearch(kw, s).value;
      var m := r.groups;
      KeywordCandidate(kw, s, r.at, m.start, |m.whole|, |m.frac|) &&
      m == MatchOf(s, m.start, |m.whole|, |m.frac|) &&
      (forall b :: Candidate(s, CommaOrDot, m.start, |m.whole|, b) ==> b <= |m.frac|) &&
      (forall i, q, a, b :: KeywordCandidate(kw, s, i, q, a, b) ==> r.at <= i) &&
      (forall q, a, b :: KeywordCandidate(kw, s, r.at, q, a, b) ==> m.start <= q)
  {
    forall i, q, a, b | KeywordCandidate(kw, s, i, q, a, b)
      ensures KeywordSearch(kw, s).Some? && KeywordSearch(kw, s).value.at <= i
      ensures KeywordSearch(kw, s).value.at == i ==> KeywordSearch(kw, s).value.groups.start <= q
    {
      CandidateIsFound(kw, s, i, q, a, b);
    }
    if KeywordSearch(kw, s).Some? {
      FoundIsCandidate(kw, s);
    }
  }

  /** Every candidate is seen by the search: its keyword is at or after the
      one found, and at the same keyword its gap is no shorter. */
  lemma CandidateIsFound(kw: Keyword, s: string, i: int, q: int, a: int, b: int)
    requires KeywordCandidate(kw, s, i, q, a, b)
    ensures KeywordSearch(kw, s).Some? && KeywordSearch(kw, s).value.at <= i
    ensures KeywordSearch(kw, s).value.at == i ==> KeywordSearch(kw, s).value.groups.start <= q
  {
    var p := i + KeywordLength(kw);
    MatchAtIsGreedy(s, CommaOrDot, q);
    assert MatchAt(s, CommaOrDot, q).Some?;
    var l := LazyMatchFrom(s, p);
    assert l.Some? && l.value.start <= q;
    assert TailMatches(kw, s, i);
    var k := KeywordStartFrom(kw, s, 0);
    assert k.Some? && k.value <= i;
  }

  /** What the search finds is a candidate with greedy groups. */
  lemma FoundIsCandidate(kw: Keyword, s: string)
    requires KeywordSearch(kw, s).Some?
    ensures var r := KeywordSearch(kw, s).value;
      var m := r.groups;
      KeywordCandidate(kw, s, r.at, m.start, |m.whole|, |m.frac|) &&
      m == MatchOf(s, m.start, |m.whole|, |m.frac|) &&
      forall b :: Candidate(s, CommaOrDot, m.start, |m.whole|, b) ==> b <= |m.frac|
  {
    var r := KeywordSearch(kw, s).value;
    var m := r.groups;
    assert MatchAt(s, CommaOrDot, m.start) == Some(m);
    MatchAtIsGreedy(s, CommaOrDot, m.start);
  }

  /** The fraction keeps its leading zeros: "36,50" and "36,5" both read as
      36.5, while "36,05" reads as 36.05. */
  lemma FractionDigitsExample()
    ensures Value(Match(0, "36", ',', "50")) == 36.5
    ensures Value(Match(0, "36", ',', "5")) == 36.5
    ensures Value(Match(0, "36", ',', "05")) == 36.05
  {
    assert "36"[..1] == "3" && "50"[..1] == "5" && "05"[..1] == "0";
    assert DigitsValue("36") == 36 && DigitsValue("50") == 50;
    assert DigitsValue("5") == 5 && DigitsValue("05") == 5;
    assert Pow10(2) == 100 && Pow10(1) == 10;
  }
}
