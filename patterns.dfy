/** The fragment of Python's `re.search` the cacheability rules use: literal characters,
    the classes `\d`, `\s`, `\w` with bounded or unbounded repetition, and `\b`.
    Matching is defined with backtracking semantics: a repetition may stop at any
    length in its range, as the regular-expression engine may. */
module Patterns {
  import opened Wrappers
  import opened Text

  datatype CharClass = Digit | Space | WordChar

  predicate InClass(c: char, cls: CharClass) {
    match cls
    case Digit => IsDigit(c)
    case Space => IsSpace(c)
    case WordChar => IsWordChar(c)
  }

  /** One element of a pattern. `Repeat(cls, lo, Some(hi))` is `cls{lo,hi}`,
      `Repeat(cls, lo, None)` is `cls{lo,}` (so `\s*` and `\s+` are lo = 0 and lo = 1). */
  datatype Token =
    | Char(c: char)
    | Repeat(cls: CharClass, lo: nat, hi: Option<nat>)
    | Boundary

  predicate AllIn(s: string, i: nat, j: nat, cls: CharClass)
    requires i <= j <= |s|
  {
    forall k | i <= k < j :: InClass(s[k], cls)
  }

  /** `\b` at position i: a word character on exactly one side. */
  predicate AtBoundary(s: string, i: nat)
    requires i <= |s|
  {
    (i > 0 && IsWordChar(s[i - 1])) != (i < |s| && IsWordChar(s[i]))
  }

  /** The pattern `p` matches some prefix of `s[i..]`. */
  predicate MatchAt(s: string, i: nat, p: seq<Token>)
    requires i <= |s|
    decreases |p|
  {
    if p == [] then true
    else match p[0]
      case Char(c) => i < |s| && s[i] == c && MatchAt(s, i + 1, p[1..])
      case Boundary => AtBoundary(s, i) && MatchAt(s, i, p[1..])
      case Repeat(cls, lo, hi) =>
        exists j | i + lo <= j <= |s| && (hi.None? || j <= i + hi.value) ::
          AllIn(s, i, j, cls) && MatchAt(s, j, p[1..])
  }

  /** A match of `p` begins at position j. The searches below quantify over start
      positions through this non-recursive name: with the recursive `MatchAt` itself as
      the trigger, the quantifiers in their postconditions are not matched. */
  predicate MatchStartsAt(s: string, j: nat, p: seq<Token>)
    requires j <= |s|
  {
    MatchAt(s, j, p)
  }

  /** Tries the start positions from i on, leftmost first, as `re.search` does. */
  function SearchFrom(s: string, p: seq<Token>, i: nat): (found: bool)
    requires i <= |s|
    ensures found <==> exists j | i <= j <= |s| :: MatchStartsAt(s, j, p)
    decreases |s| - i
  {
    if MatchStartsAt(s, i, p) then true
    else if i == |s| then false
    else SearchFrom(s, p, i + 1)
  }

  /** `re.search(p, s) is not None`. */
  function Search(s: string, p: seq<Token>): (found: bool)
    ensures found <==> exists j | 0 <= j <= |s| :: MatchStartsAt(s, j, p)
  {
    SearchFrom(s, p, 0)
  }

  /** The pattern that matches the text `w` literally. */
  function Lit(w: string): (p: seq<Token>)
    ensures |p| == |w| && forall k | 0 <= k < |w| :: p[k] == Char(w[k])
  {
    seq(|w|, k requires 0 <= k < |w| => Char(w[k]))
  }

  /** The text `w` stands in `s` at position i. */
  predicate OccursAt(s: string, i: nat, w: string) {
    i + |w| <= |s| && s[i..i + |w|] == w
  }

  lemma {:induction false} MatchLit(s: string, i: nat, w: string)
    requires i <= |s|
    ensures MatchAt(s, i, Lit(w)) <==> OccursAt(s, i, w)
    decreases |w|
  {
    if w != [] {
      assert Lit(w)[1..] == Lit(w[1..]);
      if i < |s| {
        MatchLit(s, i + 1, w[1..]);
        if i + |w| <= |s| && s[i..i + |w|] == w {
          assert s[i + 1..i + |w|] == w[1..];
        }
        if s[i] == w[0] && i + |w| <= |s| && s[i + 1..i + |w|] == w[1..] {
          assert s[i..i + |w|] == [s[i]] + s[i + 1..i + |w|];
        }
      }
    }
  }

  /** `w in s`: the text `w` occurs as a substring of `s`. */
  function Contains(s: string, w: string): (found: bool)
    ensures found <==> exists j | 0 <= j <= |s| :: OccursAt(s, j, w)
  {
    forall j | 0 <= j <= |s| ensures MatchStartsAt(s, j, Lit(w)) <==> OccursAt(s, j, w) {
      MatchLit(s, j, w);
    }
    Search(s, Lit(w))
  }

  /** `any(w in s for w in words)`, checked in list order. */
  function ContainsAny(s: string, words: seq<string>): (found: bool)
    ensures found <==> exists k | 0 <= k < |words| :: Contains(s, words[k])
  {
    if words == [] then false else Contains(s, words[0]) || ContainsAny(s, words[1..])
  }

  /** `any(re.search(p, s) for p in pats)`, checked in list order. */
  function SearchAny(s: string, pats: seq<seq<Token>>): (found: bool)
    ensures found <==> exists k | 0 <= k < |pats| :: Search(s, pats[k])
  {
    if pats == [] then false else Search(s, pats[0]) || SearchAny(s, pats[1..])
  }
}
