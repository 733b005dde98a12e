/**
 * The JavaScript string operations the document relies on: `indexOf`/`includes`,
 * `trim`, and `replaceAll` with a string pattern, including the `$` patterns of
 * the replacement string.
 */
module Text {
  import opened Values

  /** `pat` occurs in `s` starting at position `p`. */
  predicate MatchAt(s: string, pat: string, p: int)
  {
    0 <= p && p + |pat| <= |s| && s[p..p + |pat|] == pat
  }

  /** `s.indexOf(pat, from)`: the first match at or after `from`, if any. */
  function IndexOfFrom(s: string, pat: string, from: nat): (r: Option<nat>)
    requires from <= |s|
    ensures r.Some? ==> from <= r.value && MatchAt(s, pat, r.value)
    ensures r.Some? ==> forall q :: from <= q < r.value ==> !MatchAt(s, pat, q)
    ensures r.None? ==> forall q :: from <= q ==> !MatchAt(s, pat, q)
    decreases |s| - from
  {
    if MatchAt(s, pat, from) then Some(from)
    else if from == |s| then None
    else IndexOfFrom(s, pat, from + 1)
  }

  /** `s.includes(pat)`. */
  predicate Contains(s: string, pat: string)
  {
    IndexOfFrom(s, pat, 0).Some?
  }

  lemma ContainsIff(s: string, pat: string)
    ensures Contains(s, pat) <==> exists p :: MatchAt(s, pat, p)
  {
  }

  /** The characters `String.prototype.trim` removes: white space and line terminators. */
  const Whitespace: set<char> :=
    {'\t', '\n', '\U{000B}', '\U{000C}', '\r', ' ', '\U{00A0}', '\U{1680}',
     '\U{2000}', '\U{2001}', '\U{2002}', '\U{2003}', '\U{2004}', '\U{2005}',
     '\U{2006}', '\U{2007}', '\U{2008}', '\U{2009}', '\U{200A}',
     '\U{2028}', '\U{2029}', '\U{202F}', '\U{205F}', '\U{3000}', '\U{FEFF}'}

  predicate IsWhitespace(c: char)
  {
    c in Whitespace
  }

  /** The first position at or after `i` that does not hold white space. */
  function SkipSpace(s: string, i: nat): (r: nat)
    requires i <= |s|
    ensures i <= r <= |s|
    ensures forall k :: i <= k < r ==> IsWhitespace(s[k])
    ensures r < |s| ==> !IsWhitespace(s[r])
    decreases |s| - i
  {
    if i < |s| && IsWhitespace(s[i]) then SkipSpace(s, i + 1) else i
  }

  /** Where `s[lo..j]` ends once the white space at its end is dropped. */
  function SkipSpaceBack(s: string, lo: nat, j: nat): (r: nat)
    requires lo <= j <= |s|
    ensures lo <= r <= j
    ensures forall k :: r <= k < j ==> IsWhitespace(s[k])
    ensures lo < r ==> !IsWhitespace(s[r - 1])
    decreases j
  {
    if lo < j && IsWhitespace(s[j - 1]) then SkipSpaceBack(s, lo, j - 1) else j
  }

  /**
   * `s[i..j]` is what is left of `s` once white space is removed from both ends:
   * only white space lies outside it, and it neither starts nor ends with white space.
   */
  predicate TrimmedAt(s: string, i: nat, j: nat)
    requires i <= j <= |s|
  {
    (forall k :: 0 <= k < i ==> IsWhitespace(s[k])) &&
    (forall k :: j <= k < |s| ==> IsWhitespace(s[k])) &&
    (i < j ==> !IsWhitespace(s[i]) && !IsWhitespace(s[j - 1]))
  }

  /** `s.trim()`: the slice of `s` left when white space is removed from both ends. */
  function Trim(s: string): (r: string)
    ensures var i := SkipSpace(s, 0); i + |r| <= |s| && r == s[i..i + |r|] && TrimmedAt(s, i, i + |r|)
  {
    var i := SkipSpace(s, 0);
    s[i..SkipSpaceBack(s, i, |s|)]
  }

  /** There is only one such slice: any slice with only white space around it and none at its ends is `Trim(s)`. */
  lemma TrimUnique(s: string, i: nat, j: nat)
    requires i <= j <= |s| && TrimmedAt(s, i, j)
    ensures Trim(s) == s[i..j]
  {
  }

  /** The replacement characters that follow `$` in a pattern of `GetSubstitution`. */
  predicate IsPatternChar(c: char)
  {
    c == '$' || c == '&' || c == '`' || c == '\''
  }

  /**
   * The replacement text for one match (GetSubstitution of ECMAScript for a string
   * pattern, which has no capture groups): `$$` is `$`, `$&` the match, `` $` `` the
   * text before it, `$'` the text after it; any other `$` is taken literally.
   */
  function Expand(rep: string, matched: string, before: string, after: string): string
  {
    if rep == [] then []
    else if rep[0] == '$' && |rep| >= 2 && IsPatternChar(rep[1]) then
      (if rep[1] == '$' then "$" else if rep[1] == '&' then matched
       else if rep[1] == '`' then before else after)
      + Expand(rep[2..], matched, before, after)
    else [rep[0]] + Expand(rep[1..], matched, before, after)
  }

  /** No `$` in `rep` starts a replacement pattern. */
  predicate Plain(rep: string)
  {
    forall i :: 0 <= i < |rep| - 1 && rep[i] == '$' ==> !IsPatternChar(rep[i + 1])
  }

  /** A plain replacement string is inserted as it is. */
  lemma {:induction false} ExpandPlain(rep: string, matched: string, before: string, after: string)
    requires Plain(rep)
    ensures Expand(rep, matched, before, after) == rep
  {
    if rep != [] {
      assert Plain(rep[1..]) by {
        forall i | 0 <= i < |rep[1..]| - 1 && rep[1..][i] == '$' ensures !IsPatternChar(rep[1..][i + 1]) {
          assert rep[i + 1] == '$';
        }
      }
      ExpandPlain(rep[1..], matched, before, after);
    }
  }

  /** `s.replaceAll(pat, rep)` from position `from` on; matches are found left to right, without overlap. */
  function ReplaceFrom(s: string, pat: string, rep: string, from: nat): string
    requires |pat| > 0 && from <= |s|
    decreases |s| - from
  {
    match IndexOfFrom(s, pat, from)
    case None => s[from..]
    case Some(p) =>
      s[from..p] + Expand(rep, pat, s[..p], s[p + |pat|..]) + ReplaceFrom(s, pat, rep, p + |pat|)
  }

  function ReplaceAll(s: string, pat: string, rep: string): string
    requires |pat| > 0
  {
    ReplaceFrom(s, pat, rep, 0)
  }

  /** The pieces of `s[from..]` between the matches that `ReplaceFrom` replaces. */
  function SplitFrom(s: string, pat: string, from: nat): (r: seq<string>)
    requires |pat| > 0 && from <= |s|
    ensures |r| >= 1
    decreases |s| - from
  {
    match IndexOfFrom(s, pat, from)
    case None => [s[from..]]
    case Some(p) => [s[from..p]] + SplitFrom(s, pat, p + |pat|)
  }

  /** No piece contains the pattern: `replaceAll` leaves no match behind in the original text. */
  lemma {:induction false} SplitPiecesClean(s: string, pat: string, from: nat)
    requires |pat| > 0 && from <= |s|
    ensures forall i :: 0 <= i < |SplitFrom(s, pat, from)| ==> !Contains(SplitFrom(s, pat, from)[i], pat)
    decreases |s| - from
  {
    match IndexOfFrom(s, pat, from)
    case None =>
      NoMatchInSlice(s, pat, from, |s|);
      assert s[from..|s|] == s[from..];
    case Some(p) =>
      NoMatchInSlice(s, pat, from, p);
      SplitPiecesClean(s, pat, p + |pat|);
      var r := SplitFrom(s, pat, from);
      assert r == [s[from..p]] + SplitFrom(s, pat, p + |pat|);
      assert forall i :: 1 <= i < |r| ==> r[i] == SplitFrom(s, pat, p + |pat|)[i - 1];
  }

  lemma NoMatchInSlice(s: string, pat: string, from: nat, to: nat)
    requires from <= to <= |s|
    requires forall q :: from <= q < to ==> !MatchAt(s, pat, q)
    requires |pat| > 0
    ensures !Contains(s[from..to], pat)
  {
    var t := s[from..to];
    ContainsIff(t, pat);
    if Contains(t, pat) {
      var q :| MatchAt(t, pat, q);
      MatchInSlice(s, pat, from, to, q);
    }
  }

  lemma MatchInSlice(s: string, pat: string, from: nat, to: nat, q: int)
    requires from <= to <= |s|
    requires MatchAt(s[from..to], pat, q)
    ensures MatchAt(s, pat, from + q)
  {
    var t := s[from..to];
    forall k | 0 <= k < |pat| ensures s[from + q..from + q + |pat|][k] == pat[k] {
      assert pat[k] == t[q..q + |pat|][k] == t[q + k] == s[from + q + k];
    }
  }

  /** `pieces[0] + sep + pieces[1] + ... + sep + pieces[n-1]`. */
  function Join(pieces: seq<string>, sep: string): string
    requires |pieces| >= 1
  {
    if |pieces| == 1 then pieces[0] else pieces[0] + sep + Join(pieces[1..], sep)
  }

  /** The pieces and the matches between them make up the whole string again. */
  lemma {:induction false} SplitJoin(s: string, pat: string, from: nat)
    requires |pat| > 0 && from <= |s|
    ensures Join(SplitFrom(s, pat, from), pat) == s[from..]
    decreases |s| - from
  {
    match IndexOfFrom(s, pat, from)
    case None =>
    case Some(p) =>
      var rest := SplitFrom(s, pat, p + |pat|);
      SplitJoin(s, pat, p + |pat|);
      JoinCons(s[from..p], rest, pat);
      SliceAroundMatch(s, pat, from, p);
  }

  lemma JoinCons(first: string, rest: seq<string>, sep: string)
    requires |rest| >= 1
    ensures Join([first] + rest, sep) == first + sep + Join(rest, sep)
  {
  }

  lemma SliceAroundMatch(s: string, pat: string, from: nat, p: nat)
    requires from <= p && MatchAt(s, pat, p)
    ensures s[from..] == s[from..p] + pat + s[p + |pat|..]
  {
  }

  /** With a plain replacement, every match is replaced by `rep` itself and nothing else changes. */
  lemma {:induction false} ReplacePlain(s: string, pat: string, rep: string, from: nat)
    requires |pat| > 0 && from <= |s|
    requires Plain(rep)
    ensures ReplaceFrom(s, pat, rep, from) == Join(SplitFrom(s, pat, from), rep)
    decreases |s| - from
  {
    match IndexOfFrom(s, pat, from)
    case None =>
    case Some(p) =>
      ExpandPlain(rep, pat, s[..p], s[p + |pat|..]);
      ReplacePlain(s, pat, rep, p + |pat|);
  }

  /** A pattern that does not occur leaves the string as it is. */
  lemma ReplaceAbsent(s: string, pat: string, rep: string)
    requires |pat| > 0
    requires forall p :: !MatchAt(s, pat, p)
    ensures ReplaceAll(s, pat, rep) == s
  {
  }

}
