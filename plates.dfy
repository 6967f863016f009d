/**
 * The licence-plate scan of the frame analysis: the regular expression
 * `[A-Z]{2}[ -]?[0-9]{2}[ -]?[A-Z]{1,2}[ -]?[0-9]{4}` applied with the `g`
 * flag through `String.prototype.match`. A pattern is a sequence of pieces
 * `class{min,max}`; matching at a position follows the backtracking order of
 * a JavaScript regular expression (each quantifier is greedy and gives back
 * one character at a time), and the global match collects the leftmost
 * match, resuming at its end.
 */
module Plates {
  import opened Optional

  datatype CharClass = Upper | Digit | SpaceOrHyphen

  predicate InClass(c: char, cls: CharClass) {
    match cls
    case Upper => 'A' <= c <= 'Z'
    case Digit => '0' <= c <= '9'
    case SpaceOrHyphen => c == ' ' || c == '-'
  }

  /** `cls{min,max}`; `?` is `{0,1}`. */
  datatype Piece = Piece(cls: CharClass, min: nat, max: nat)

  const PlatePattern: seq<Piece> := [
    Piece(Upper, 2, 2), Piece(SpaceOrHyphen, 0, 1), Piece(Digit, 2, 2), Piece(SpaceOrHyphen, 0, 1),
    Piece(Upper, 1, 2), Piece(SpaceOrHyphen, 0, 1), Piece(Digit, 4, 4)]

  /** The `k` characters of `s` from `i` on exist and all belong to `cls`. */
  predicate RunOf(s: string, i: nat, k: nat, cls: CharClass) {
    i + k <= |s| && forall j :: i <= j < i + k ==> InClass(s[j], cls)
  }

  /** The longest run of `cls` characters from `i`, cut off at `bound`: how far a greedy quantifier reaches. */
  function RunLength(s: string, i: nat, cls: CharClass, bound: nat): (n: nat)
    requires i <= |s|
    ensures n <= bound && RunOf(s, i, n, cls)
    ensures n < bound ==> i + n == |s| || !InClass(s[i + n], cls)
    decreases bound
  {
    if bound == 0 || i == |s| || !InClass(s[i], cls) then 0 else 1 + RunLength(s, i + 1, cls, bound - 1)
  }

  /** No run within the bound is longer than the greedy one. */
  lemma {:induction false} RunLengthIsLongest(s: string, i: nat, k: nat, cls: CharClass, bound: nat)
    requires i <= |s| && k <= bound && RunOf(s, i, k, cls)
    ensures k <= RunLength(s, i, cls, bound)
    decreases bound
  {
    if bound > 0 && i < |s| && InClass(s[i], cls) && k > 0 {
      RunLengthIsLongest(s, i + 1, k - 1, cls, bound - 1);
    }
  }

  /** `ps` matches exactly the characters of `s` from `i` up to `e`. */
  ghost predicate Matches(s: string, i: nat, e: nat, ps: seq<Piece>)
    decreases |ps|
  {
    i <= e <= |s| &&
    if ps == [] then i == e
    else exists k: nat :: ps[0].min <= k <= ps[0].max && RunOf(s, i, k, ps[0].cls) && Matches(s, i + k, e, ps[1..])
  }

  /**
   * The end of the first match of `ps` at `i` in backtracking order, if any:
   * the first piece takes as many characters as it can and gives them back
   * one at a time until the rest of the pattern matches.
   */
  function MatchPieces(s: string, i: nat, ps: seq<Piece>): (r: Option<nat>)
    requires i <= |s|
    ensures r.Some? ==> i <= r.value <= |s|
    decreases |ps|, 0, 0
  {
    if ps == [] then Some(i)
    else
      var n := RunLength(s, i, ps[0].cls, ps[0].max);
      if n < ps[0].min then None else TryCounts(s, i, ps[0], ps[1..], n)
  }

  /** Piece `p` takes `k` characters, then `k - 1`, ... down to its minimum. */
  function TryCounts(s: string, i: nat, p: Piece, rest: seq<Piece>, k: nat): (r: Option<nat>)
    requires i + k <= |s| && p.min <= k
    ensures r.Some? ==> i <= r.value <= |s|
    decreases |rest|, 1, k
  {
    match MatchPieces(s, i + k, rest)
    case Some(e) => Some(e)
    case None => if k == p.min then None else TryCounts(s, i, p, rest, k - 1)
  }

  /** What the backtracking search returns is a match. */
  lemma {:induction false} MatchPiecesSound(s: string, i: nat, ps: seq<Piece>)
    requires i <= |s|
    ensures MatchPieces(s, i, ps).Some? ==> Matches(s, i, MatchPieces(s, i, ps).value, ps)
    decreases |ps|, 0, 0
  {
    if ps != [] {
      var n := RunLength(s, i, ps[0].cls, ps[0].max);
      if n >= ps[0].min {
        TryCountsSound(s, i, ps[0], ps[1..], n);
        assert [ps[0]] + ps[1..] == ps;
      }
    }
  }

  lemma {:induction false} TryCountsSound(s: string, i: nat, p: Piece, rest: seq<Piece>, k: nat)
    requires i + k <= |s| && p.min <= k <= p.max && RunOf(s, i, k, p.cls)
    ensures TryCounts(s, i, p, rest, k).Some? ==> Matches(s, i, TryCounts(s, i, p, rest, k).value, [p] + rest)
    decreases |rest|, 1, k
  {
    MatchPiecesSound(s, i + k, rest);
    assert ([p] + rest)[1..] == rest;
    match MatchPieces(s, i + k, rest)
    case Some(e) =>
      assert RunOf(s, i, k, ([p] + rest)[0].cls) && Matches(s, i + k, e, ([p] + rest)[1..]);
    case None =>
      if k > p.min {
        TryCountsSound(s, i, p, rest, k - 1);
      }
  }

  /** The backtracking search misses no match: whenever some match starts at `i`, it finds one. */
  lemma {:induction false} MatchPiecesComplete(s: string, i: nat, e: nat, ps: seq<Piece>)
    requires Matches(s, i, e, ps)
    ensures MatchPieces(s, i, ps).Some?
    decreases |ps|, 0, 0
  {
    if ps != [] {
      var k: nat :| ps[0].min <= k <= ps[0].max && RunOf(s, i, k, ps[0].cls) && Matches(s, i + k, e, ps[1..]);
      RunLengthIsLongest(s, i, k, ps[0].cls, ps[0].max);
      TryCountsComplete(s, i, ps[0], ps[1..], RunLength(s, i, ps[0].cls, ps[0].max), k, e);
    }
  }

  lemma {:induction false} TryCountsComplete(s: string, i: nat, p: Piece, rest: seq<Piece>, k: nat, c: nat, e: nat)
    requires i + k <= |s| && p.min <= c <= k
    requires Matches(s, i + c, e, rest)
    ensures TryCounts(s, i, p, rest, k).Some?
    decreases |rest|, 1, k
  {
    if k == c {
      MatchPiecesComplete(s, i + k, e, rest);
    } else {
      TryCountsComplete(s, i, p, rest, k - 1, c, e);
    }
  }

  datatype Span = Span(start: nat, end: nat)

  /**
   * `s.match(re)` for a global `re`, searching from `p`: the leftmost match,
   * then the search resumes where it ended (one further on after an empty match).
   */
  function MatchSpans(s: string, p: nat, ps: seq<Piece>): (r: seq<Span>)
    requires p <= |s|
    ensures forall k :: 0 <= k < |r| ==> p <= r[k].start <= r[k].end <= |s|
    ensures forall k :: 0 <= k < |r| - 1 ==> r[k].end <= r[k + 1].start
    decreases |s| + 1 - p
  {
    match MatchPieces(s, p, ps)
    case Some(e) =>
      if e > p then [Span(p, e)] + MatchSpans(s, e, ps)
      else if p < |s| then [Span(p, e)] + MatchSpans(s, p + 1, ps)
      else [Span(p, e)]
    case None =>
      if p < |s| then MatchSpans(s, p + 1, ps) else []
  }

  /** Every span the global match reports is a match of the pattern. */
  lemma {:induction false} MatchSpansSound(s: string, p: nat, ps: seq<Piece>)
    requires p <= |s|
    ensures forall k :: 0 <= k < |MatchSpans(s, p, ps)| ==>
      Matches(s, MatchSpans(s, p, ps)[k].start, MatchSpans(s, p, ps)[k].end, ps)
    decreases |s| + 1 - p
  {
    MatchPiecesSound(s, p, ps);
    match MatchPieces(s, p, ps)
    case Some(e) =>
      if e > p {
        MatchSpansSound(s, e, ps);
      } else if p < |s| {
        MatchSpansSound(s, p + 1, ps);
      }
    case None =>
      if p < |s| {
        MatchSpansSound(s, p + 1, ps);
      }
  }

  /** A match anywhere from `p` on is reported, and the first span starts no later than it. */
  lemma {:induction false} MatchSpansComplete(s: string, p: nat, ps: seq<Piece>, i: nat, e: nat)
    requires p <= i && Matches(s, i, e, ps)
    ensures MatchSpans(s, p, ps) != [] && MatchSpans(s, p, ps)[0].start <= i
    decreases i - p
  {
    if MatchPieces(s, p, ps).None? {
      if p == i {
        MatchPiecesComplete(s, i, e, ps);
      } else {
        MatchSpansComplete(s, p + 1, ps, i, e);
      }
    }
  }

  // Shape of a match.

  function MinLength(ps: seq<Piece>): nat {
    if ps == [] then 0 else ps[0].min + MinLength(ps[1..])
  }

  function MaxLength(ps: seq<Piece>): nat {
    if ps == [] then 0 else ps[0].max + MaxLength(ps[1..])
  }

  predicate PlateChar(c: char) {
    InClass(c, Upper) || InClass(c, Digit) || InClass(c, SpaceOrHyphen)
  }

  /** A match is as long as the pattern allows and made only of the pattern's characters. */
  lemma {:induction false} MatchShape(s: string, i: nat, e: nat, ps: seq<Piece>)
    requires Matches(s, i, e, ps)
    ensures MinLength(ps) <= e - i <= MaxLength(ps)
    ensures forall j :: i <= j < e ==> PlateChar(s[j])
    decreases |ps|
  {
    if ps != [] {
      var k: nat :| ps[0].min <= k <= ps[0].max && RunOf(s, i, k, ps[0].cls) && Matches(s, i + k, e, ps[1..]);
      MatchShape(s, i + k, e, ps[1..]);
      forall j | i <= j < i + k ensures PlateChar(s[j]) {
        assert InClass(s[j], ps[0].cls);
      }
    }
  }

  /** A match begins with at least the minimum of the first piece. */
  lemma MatchHead(s: string, i: nat, e: nat, ps: seq<Piece>)
    requires ps != [] && Matches(s, i, e, ps)
    ensures RunOf(s, i, ps[0].min, ps[0].cls)
  {
  }

  /** A match ends with the last piece, when that piece has a fixed count. */
  lemma {:induction false} MatchTail(s: string, i: nat, e: nat, ps: seq<Piece>)
    requires ps != [] && ps[|ps| - 1].min == ps[|ps| - 1].max && Matches(s, i, e, ps)
    ensures ps[|ps| - 1].max <= e && RunOf(s, e - ps[|ps| - 1].max, ps[|ps| - 1].max, ps[|ps| - 1].cls)
    decreases |ps|
  {
    var k: nat :| ps[0].min <= k <= ps[0].max && RunOf(s, i, k, ps[0].cls) && Matches(s, i + k, e, ps[1..]);
    if |ps| > 1 {
      MatchTail(s, i + k, e, ps[1..]);
      assert ps[1..][|ps[1..]| - 1] == ps[|ps| - 1];
    }
  }

  /**
   * Two capital letters first, four digits last, 9 to 13 characters, and
   * nothing but capitals, digits, spaces and hyphens.
   */
  predicate PlateShaped(t: string) {
    && 9 <= |t| <= 13
    && InClass(t[0], Upper) && InClass(t[1], Upper)
    && (forall j :: |t| - 4 <= j < |t| ==> InClass(t[j], Digit))
    && (forall j :: 0 <= j < |t| ==> PlateChar(t[j]))
  }

  lemma PlatePatternBounds()
    ensures MinLength(PlatePattern) == 9 && MaxLength(PlatePattern) == 13
  {
    var ps := PlatePattern;
    assert ps[1..][1..][1..][1..][1..][1..][1..] == [];
  }

  /** Every match of the plate pattern has the plate shape. */
  lemma PlateMatchShaped(s: string, i: nat, e: nat)
    requires Matches(s, i, e, PlatePattern)
    ensures PlateShaped(s[i..e])
  {
    MatchShape(s, i, e, PlatePattern);
    MatchHead(s, i, e, PlatePattern);
    MatchTail(s, i, e, PlatePattern);
    PlatePatternBounds();
    var t := s[i..e];
    assert forall j :: 0 <= j < |t| ==> t[j] == s[i + j];
  }

  /** `(finalText.match(plateRegex) || [])` */
  function Candidates(s: string): (r: seq<string>)
    ensures |r| == |MatchSpans(s, 0, PlatePattern)|
    ensures forall k :: 0 <= k < |r| ==>
      r[k] == s[MatchSpans(s, 0, PlatePattern)[k].start..MatchSpans(s, 0, PlatePattern)[k].end]
  {
    var spans := MatchSpans(s, 0, PlatePattern);
    seq(|spans|, k requires 0 <= k < |spans| => s[spans[k].start..spans[k].end])
  }

  /** Every candidate has the plate shape. */
  lemma CandidatesArePlates(s: string)
    ensures forall k :: 0 <= k < |Candidates(s)| ==> PlateShaped(Candidates(s)[k])
  {
    var spans := MatchSpans(s, 0, PlatePattern);
    MatchSpansSound(s, 0, PlatePattern);
    forall k | 0 <= k < |spans| ensures PlateShaped(Candidates(s)[k]) {
      PlateMatchShaped(s, spans[k].start, spans[k].end);
    }
  }

  /** A plate anywhere in the text is reported. */
  lemma PlateIsFound(s: string, i: nat, e: nat)
    requires Matches(s, i, e, PlatePattern)
    ensures Candidates(s) != []
  {
    MatchSpansComplete(s, 0, PlatePattern, i, e);
  }

  /** A text without a digit yields no candidate. */
  lemma NoDigitNoCandidate(s: string)
    ensures (forall j :: 0 <= j < |s| ==> !InClass(s[j], Digit)) ==> Candidates(s) == []
  {
    var spans := MatchSpans(s, 0, PlatePattern);
    if spans != [] {
      MatchSpansSound(s, 0, PlatePattern);
      MatchTail(s, spans[0].start, spans[0].end, PlatePattern);
      assert InClass(s[spans[0].end - 1], Digit);
    }
  }
}
