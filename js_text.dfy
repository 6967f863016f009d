/**
 * The JavaScript string built-ins the source relies on, with their JavaScript
 * meaning: `trim`, `toLowerCase` (on ASCII letters), `includes`, `length`
 * counted in UTF-16 code units, `split` on a character class,
 * `replace(/pat/g, '')`, and the insertion-ordered de-duplication of
 * `Array.from(new Set(xs))`.
 */
module JsText {

  /** The WhiteSpace and LineTerminator code points that `trim` and `\s` cover. */
  predicate IsSpace(c: char) {
    || c == ' ' || c == '\t' || c == '\n' || c == '\U{000B}' || c == '\U{000C}' || c == '\r'
    || c == '\U{00A0}' || c == '\U{1680}' || ('\U{2000}' <= c <= '\U{200A}')
    || c == '\U{2028}' || c == '\U{2029}' || c == '\U{202F}' || c == '\U{205F}'
    || c == '\U{3000}' || c == '\U{FEFF}'
  }

  predicate IsBlank(s: string) {
    forall i :: 0 <= i < |s| ==> IsSpace(s[i])
  }

  /** How many whitespace code units `s` starts with. */
  function LeadingSpaces(s: string): (n: nat)
    ensures n <= |s|
    ensures forall i :: 0 <= i < n ==> IsSpace(s[i])
    ensures n == |s| || !IsSpace(s[n])
  {
    if s != [] && IsSpace(s[0]) then
      var m := LeadingSpaces(s[1..]);
      assert forall i :: 1 <= i < m + 1 ==> s[i] == s[1..][i - 1];
      1 + m
    else 0
  }

  /** How many whitespace code units `s` ends with. */
  function TrailingSpaces(s: string): (n: nat)
    ensures n <= |s|
    ensures forall i :: |s| - n <= i < |s| ==> IsSpace(s[i])
    ensures n == |s| || !IsSpace(s[|s| - n - 1])
  {
    if s != [] && IsSpace(s[|s| - 1]) then
      var m := TrailingSpaces(s[..|s| - 1]);
      assert forall i :: |s| - 1 - m <= i < |s| - 1 ==> s[i] == s[..|s| - 1][i];
      1 + m
    else 0
  }

  /** Leading whitespace removed: what is left is a suffix, and only blanks went. */
  function TrimStart(s: string): (r: string)
    ensures |r| <= |s| && r == s[|s| - |r|..]
    ensures IsBlank(s[..|s| - |r|])
    ensures r == [] || !IsSpace(r[0])
  {
    s[LeadingSpaces(s)..]
  }

  /** Trailing whitespace removed: what is left is a prefix, and only blanks went. */
  function TrimEnd(s: string): (r: string)
    ensures |r| <= |s| && r == s[..|r|]
    ensures IsBlank(s[|r|..])
    ensures r == [] || !IsSpace(r[|r| - 1])
  {
    s[..|s| - TrailingSpaces(s)]
  }

  /** `s.trim()` */
  function Trim(s: string): (r: string)
    ensures r == [] <==> IsBlank(s)
    ensures r != [] ==> !IsSpace(r[0]) && !IsSpace(r[|r| - 1])
    ensures forall i :: 0 <= i < |r| ==> r[i] in s
  {
    var t := TrimStart(s);
    var r := TrimEnd(t);
    var k := |s| - |t|;
    assert r == [] ==> IsBlank(s) by {
      if r == [] {
        assert s == s[..k] + t;
        assert t[|r|..] == t;
        BlankAppend(s[..k], t);
      }
    }
    assert t != [] ==> t[0] == s[k];
    assert forall i :: 0 <= i < |r| ==> r[i] == s[k + i];
    r
  }

  /** `trim` keeps the middle of `s` in place: only the blank ends before and after it are dropped. */
  lemma TrimKeepsMiddle(s: string)
    ensures var a := |s| - |TrimStart(s)|; var r := Trim(s);
      && a + |r| <= |s| && r == s[a..a + |r|]
      && IsBlank(s[..a]) && IsBlank(s[a + |r|..])
  {
    var t := TrimStart(s);
    var r := TrimEnd(t);
    var a := |s| - |t|;
    assert r == t[..|r|] && t == s[a..];
    assert s[a + |r|..] == t[|r|..];
  }

  lemma BlankAppend(a: string, b: string)
    requires IsBlank(a) && IsBlank(b)
    ensures IsBlank(a + b)
  {
    assert forall i :: |a| <= i < |a| + |b| ==> (a + b)[i] == b[i - |a|];
  }

  /** `c.toLowerCase()` for one character; only the ASCII letters change. */
  function LowerChar(c: char): char {
    if 'A' <= c <= 'Z' then (c as int + 32) as char else c
  }

  /** `s.toLowerCase()`, restricted to ASCII letters. */
  function Lower(s: string): (r: string)
    ensures |r| == |s|
    ensures forall i :: 0 <= i < |s| ==> r[i] == LowerChar(s[i])
  {
    seq(|s|, i requires 0 <= i < |s| => LowerChar(s[i]))
  }

  predicate IsLower(s: string) {
    Lower(s) == s
  }

  /** `xs.map(s => s.toLowerCase())` */
  function LowerAll(xs: seq<string>): (r: seq<string>)
    ensures |r| == |xs|
    ensures forall i :: 0 <= i < |xs| ==> r[i] == Lower(xs[i])
  {
    seq(|xs|, i requires 0 <= i < |xs| => Lower(xs[i]))
  }

  /** Lower-casing is idempotent, so every lower-cased string is lower case. */
  lemma LowerIsLower(s: string)
    ensures IsLower(Lower(s))
  {
  }

  /** `s.length`: UTF-16 code units, two for a code point outside the Basic Multilingual Plane. */
  function JsLength(s: string): nat {
    if s == [] then 0 else (if s[0] as int >= 0x1_0000 then 2 else 1) + JsLength(s[1..])
  }

  /** `k` occurs in `s` starting at index `i`. */
  predicate OccursAt(s: string, k: string, i: int) {
    0 <= i && i + |k| <= |s| && s[i..i + |k|] == k
  }

  /** `s.includes(k)`, as a left-to-right scan. */
  function Includes(s: string, k: string): (r: bool)
    ensures r <==> exists i :: OccursAt(s, k, i)
  {
    if |k| > |s| then false
    else if s[..|k|] == k then assert OccursAt(s, k, 0); true
    else
      assert |k| == 0 ==> k == [];
      assert forall i :: OccursAt(s, k, i) ==> i > 0 && OccursAt(s[1..], k, i - 1);
      assert forall i :: OccursAt(s[1..], k, i) ==> OccursAt(s, k, i + 1);
      Includes(s[1..], k)
  }

  /** The separators of `s`, in order. */
  function Separators(s: string, sep: char -> bool): (r: string)
    ensures forall i :: 0 <= i < |r| ==> sep(r[i])
  {
    if s == [] then [] else (if sep(s[0]) then [s[0]] else []) + Separators(s[1..], sep)
  }

  /** `s.split(re)` for a regular expression matching exactly the one-character separators. */
  function SplitWhere(s: string, sep: char -> bool): (parts: seq<string>)
    ensures |parts| == |Separators(s, sep)| + 1
    ensures forall i, j :: 0 <= i < |parts| && 0 <= j < |parts[i]| ==> !sep(parts[i][j])
  {
    if s == [] then [[]]
    else
      var rest := SplitWhere(s[1..], sep);
      assert Separators(s, sep) == (if sep(s[0]) then [s[0]] else []) + Separators(s[1..], sep);
      if sep(s[0]) then [[]] + rest
      else
        [[s[0]] + rest[0]] + rest[1..]
  }

  /** `parts[0] + seps[0] + parts[1] + ... + parts[n]` */
  function Interleave(parts: seq<string>, seps: string): string
    requires |parts| == |seps| + 1
  {
    if |parts| == 1 then parts[0] else parts[0] + [seps[0]] + Interleave(parts[1..], seps[1..])
  }

  /** Splitting loses nothing: putting the separators back between the parts gives `s` again. */
  lemma {:induction false} SplitRoundTrip(s: string, sep: char -> bool)
    ensures Interleave(SplitWhere(s, sep), Separators(s, sep)) == s
  {
    if s != [] {
      var rest := SplitWhere(s[1..], sep);
      var seps := Separators(s[1..], sep);
      SplitRoundTrip(s[1..], sep);
      if sep(s[0]) {
        assert Separators(s, sep) == [s[0]] + seps;
      } else {
        assert Separators(s, sep) == seps;
        InterleaveHead(s[0], rest, seps);
      }
    }
  }

  lemma {:induction false} InterleaveHead(c: char, parts: seq<string>, seps: string)
    requires |parts| == |seps| + 1
    ensures Interleave([[c] + parts[0]] + parts[1..], seps) == [c] + Interleave(parts, seps)
  {
    var q := [[c] + parts[0]] + parts[1..];
    assert q[1..] == parts[1..];
  }

  /** `s.replace(/pat/g, '')`: the non-overlapping occurrences of `pat`, leftmost first, are deleted. */
  function RemoveAll(s: string, pat: string): (r: string)
    requires pat != []
    ensures |r| <= |s|
    ensures forall i :: 0 <= i < |r| ==> r[i] in s
    ensures !Includes(s, pat) ==> r == s
  {
    if |s| < |pat| then s
    else if s[..|pat|] == pat then assert OccursAt(s, pat, 0); RemoveAll(s[|pat|..], pat)
    else
      assert forall i :: OccursAt(s[1..], pat, i) ==> OccursAt(s, pat, i + 1);
      [s[0]] + RemoveAll(s[1..], pat)
  }

  /** The pieces of `s` between the occurrences of `pat` that `RemoveAll` deletes, in order. */
  function RemovalPieces(s: string, pat: string): (parts: seq<string>)
    requires pat != []
    ensures |parts| >= 1
  {
    if |s| < |pat| then [s]
    else if s[..|pat|] == pat then [[]] + RemovalPieces(s[|pat|..], pat)
    else
      var rest := RemovalPieces(s[1..], pat);
      [[s[0]] + rest[0]] + rest[1..]
  }

  /** `parts[0] + pat + parts[1] + ... + pat + parts[n]` */
  function JoinWith(parts: seq<string>, pat: string): string
    requires |parts| >= 1
  {
    if |parts| == 1 then parts[0] else parts[0] + pat + JoinWith(parts[1..], pat)
  }

  function Concat(parts: seq<string>): string {
    if parts == [] then [] else parts[0] + Concat(parts[1..])
  }

  /** Removal keeps exactly the pieces between the deleted occurrences, in order. */
  lemma {:induction false} RemoveAllKeepsPieces(s: string, pat: string)
    requires pat != []
    ensures RemoveAll(s, pat) == Concat(RemovalPieces(s, pat))
    decreases |s|
  {
    if |s| < |pat| {
      assert Concat([s]) == s + Concat([]);
    } else if s[..|pat|] == pat {
      var rest := RemovalPieces(s[|pat|..], pat);
      RemoveAllKeepsPieces(s[|pat|..], pat);
      assert ([[]] + rest)[1..] == rest;
    } else {
      RemoveAllKeepsPieces(s[1..], pat);
      ConcatHead(s[0], RemovalPieces(s[1..], pat));
    }
  }

  /** Putting `pat` back between the pieces gives `s` again: removal deletes the occurrences and nothing else. */
  lemma {:induction false} RemoveAllRoundTrip(s: string, pat: string)
    requires pat != []
    ensures JoinWith(RemovalPieces(s, pat), pat) == s
    decreases |s|
  {
    if |s| < |pat| {
    } else if s[..|pat|] == pat {
      RemoveAllRoundTrip(s[|pat|..], pat);
      JoinAfterEmpty(RemovalPieces(s[|pat|..], pat), pat);
      assert s == pat + s[|pat|..];
    } else {
      RemoveAllRoundTrip(s[1..], pat);
      JoinHead(s[0], RemovalPieces(s[1..], pat), pat);
      assert s == [s[0]] + s[1..];
    }
  }

  lemma JoinAfterEmpty(parts: seq<string>, pat: string)
    requires |parts| >= 1
    ensures JoinWith([[]] + parts, pat) == pat + JoinWith(parts, pat)
  {
    assert ([[]] + parts)[1..] == parts;
  }

  lemma ConcatHead(c: char, parts: seq<string>)
    requires |parts| >= 1
    ensures Concat([[c] + parts[0]] + parts[1..]) == [c] + Concat(parts)
  {
    var q := [[c] + parts[0]] + parts[1..];
    assert q[1..] == parts[1..];
  }

  lemma JoinHead(c: char, parts: seq<string>, pat: string)
    requires |parts| >= 1
    ensures JoinWith([[c] + parts[0]] + parts[1..], pat) == [c] + JoinWith(parts, pat)
  {
    var q := [[c] + parts[0]] + parts[1..];
    assert q[1..] == parts[1..];
  }

  const Fence := "```"

  predicate StartsWith2Ticks(t: string) {
    |t| >= 2 && t[0] == '`' && t[1] == '`'
  }

  lemma {:induction false} RemoveFenceKeepsHead(t: string)
    ensures |RemoveAll(t, Fence)| > 0 && RemoveAll(t, Fence)[0] == '`' ==> |t| > 0 && t[0] == '`'
    ensures StartsWith2Ticks(RemoveAll(t, Fence)) ==> StartsWith2Ticks(t)
    decreases |t|
  {
    if |t| >= 3 {
      if t[..3] == Fence {
        assert t[0] == '`' && t[1] == '`';
      } else {
        RemoveFenceKeepsHead(t[1..]);
      }
    }
  }

  /** After `replace(/```/g, '')` no three backticks in a row are left. */
  lemma {:induction false} RemoveFenceLeavesNoFence(s: string)
    ensures !Includes(RemoveAll(s, Fence), Fence)
    decreases |s|
  {
    if |s| < 3 {
      assert forall i :: !OccursAt(RemoveAll(s, Fence), Fence, i);
    } else if s[..3] == Fence {
      RemoveFenceLeavesNoFence(s[3..]);
    } else {
      RemoveFenceLeavesNoFence(s[1..]);
      RemoveFenceKeepsHead(s[1..]);
      assert s[0] == '`' ==> !StartsWith2Ticks(s[1..]) by {
        assert s[..3] == [s[0], s[1], s[2]];
      }
      NoFenceAfterCons(s[0], RemoveAll(s[1..], Fence));
    }
  }

  /** Putting a character in front of a fence-free text makes a fence only when the text starts with two backticks. */
  lemma NoFenceAfterCons(c: char, tail: string)
    requires !Includes(tail, Fence)
    requires c == '`' ==> !StartsWith2Ticks(tail)
    ensures !Includes([c] + tail, Fence)
  {
    var r := [c] + tail;
    forall i | 0 <= i ensures !OccursAt(r, Fence, i) {
      if i + 3 <= |r| {
        if i == 0 {
          assert r[..3] == [c, tail[0], tail[1]];
          assert Fence == ['`', '`', '`'];
        } else {
          assert r[i..i + 3] == tail[i - 1..i + 2];
          assert !OccursAt(tail, Fence, i - 1);
        }
      }
    }
  }

  /** `Array.from(new Set(xs))`: each value once, in the order of its first insertion. */
  function Dedup(xs: seq<string>): (r: seq<string>)
    ensures |r| <= |xs|
    ensures forall i, j :: 0 <= i < j < |r| ==> r[i] != r[j]
    ensures forall x :: x in r <==> x in xs
  {
    if xs == [] then []
    else
      var d := Dedup(xs[..|xs| - 1]);
      assert xs == xs[..|xs| - 1] + [xs[|xs| - 1]];
      if xs[|xs| - 1] in d then d else d + [xs[|xs| - 1]]
  }

  /** A `Set` adds a value at the end exactly when it is not there yet. */
  lemma DedupAppend(xs: seq<string>, x: string)
    ensures Dedup(xs + [x]) == if x in xs then Dedup(xs) else Dedup(xs) + [x]
  {
    assert (xs + [x])[..|xs|] == xs;
  }

  /** `/^\d*$/.test(s)` */
  predicate AllDigits(s: string) {
    forall i :: 0 <= i < |s| ==> '0' <= s[i] <= '9'
  }

  /** `xs.slice(0, n)` */
  function Take<T>(xs: seq<T>, n: nat): (r: seq<T>)
    ensures |r| == if |xs| <= n then |xs| else n
    ensures r == xs[..|r|]
  {
    if |xs| <= n then xs else xs[..n]
  }
}
