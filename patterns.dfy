/** The case-insensitive regular expressions of the section table: each is an alternation
    whose branches are either a literal word or `head.*tail`. `text.match(p).index` is the
    leftmost position at which some branch matches. */
module Patterns {
  import opened Wrappers
  import opened Text

  datatype Alternative =
    | Literal(word: string)             // the branch `word`
    | Spanning(head: string, tail: string)  // the branch `head.*tail`

  /** A regular expression with the `i` flag: its branches, in source order. */
  type Pattern = seq<Alternative>

  /** `w` matches at `i`, ignoring case. */
  predicate WordAt(text: string, i: nat, w: string)
  {
    i + |w| <= |text| && Lower(text[i..i + |w|]) == Lower(w)
  }

  /** `.*tail` matches from `k`: `tail` starts at `k` or at some later position reached
      without crossing a line terminator. */
  predicate TailFrom(text: string, k: nat, tail: string)
    decreases |text| - k
  {
    WordAt(text, k, tail) || (k < |text| && !IsLineTerminator(text[k]) && TailFrom(text, k + 1, tail))
  }

  predicate AlternativeAt(text: string, i: nat, alt: Alternative)
  {
    match alt
    case Literal(w) => WordAt(text, i, w)
    case Spanning(h, t) => WordAt(text, i, h) && TailFrom(text, i + |h|, t)
  }

  /** Some branch of `p` matches at `i`. */
  predicate MatchesAt(text: string, i: nat, p: Pattern)
  {
    exists k :: 0 <= k < |p| && AlternativeAt(text, i, p[k])
  }

  function FirstMatchFrom(text: string, p: Pattern, from: nat): (r: Option<nat>)
    ensures r.Some? ==> from <= r.value <= |text| && MatchesAt(text, r.value, p)
    ensures r.Some? ==> forall i: nat :: from <= i < r.value ==> !MatchesAt(text, i, p)
    ensures r.None? ==> forall i: nat :: from <= i <= |text| ==> !MatchesAt(text, i, p)
    decreases |text| - from
  {
    if from > |text| then None
    else if MatchesAt(text, from, p) then Some(from)
    else FirstMatchFrom(text, p, from + 1)
  }

  /** `text.match(p)?.index`: the leftmost position at which `p` matches. */
  function FirstMatch(text: string, p: Pattern): (r: Option<nat>)
    ensures r.Some? ==> r.value <= |text| && MatchesAt(text, r.value, p)
    ensures r.Some? ==> forall i: nat :: i < r.value ==> !MatchesAt(text, i, p)
    ensures r.None? ==> forall i: nat :: i <= |text| ==> !MatchesAt(text, i, p)
  {
    FirstMatchFrom(text, p, 0)
  }
}
