/** The three-level scale 'high' | 'medium' | 'low' that the charter code uses for
    confidence, recommendation priority and severity. */
module Levels {
  import opened Wrappers

  datatype Level = High | Medium | Low

  /** Position in the order high > medium > low. */
  function Rank(l: Level): nat
  {
    match l
    case High => 2
    case Medium => 1
    case Low => 0
  }

  /** The larger of two levels in that order. */
  function Max(a: Level, b: Level): (m: Level)
    ensures m == a || m == b
    ensures Rank(a) <= Rank(m) && Rank(b) <= Rank(m)
  {
    if Rank(a) >= Rank(b) then a else b
  }

  /** The string literal the source uses for a level. */
  function Label(l: Level): string
  {
    match l
    case High => "high"
    case Medium => "medium"
    case Low => "low"
  }

  /** Membership of a string in ['high', 'medium', 'low'], giving the level it names. */
  function ParseLevel(s: string): (r: Option<Level>)
    ensures r.Some? ==> Label(r.value) == s
    ensures forall l: Level :: Label(l) == s ==> r == Some(l)
  {
    if s == "high" then Some(High)
    else if s == "medium" then Some(Medium)
    else if s == "low" then Some(Low)
    else None
  }
}
