/** Python string primitives the cache and the formatter rely on: character classes,
    `str.lower`, `str.split()`, `str.strip()`, `sep.join`, `str(int)` and the `,` format spec. */
module Text {

  // ---------------------------------------------------------------------------
  // Character classes
  // ---------------------------------------------------------------------------

  /** The characters Python's `str.isspace()` accepts; `str.split()`, `str.strip()` and
      the regular-expression class `\s` all use this set. */
  predicate IsSpace(c: char) {
    || c == ' '
    || ('\t' <= c <= '\r')
    || ('\U{1c}' <= c <= '\U{1f}')
    || c == '\U{85}' || c == '\U{a0}' || c == '\U{1680}'
    || ('\U{2000}' <= c <= '\U{200a}')
    || c == '\U{2028}' || c == '\U{2029}' || c == '\U{202f}' || c == '\U{205f}' || c == '\U{3000}'
  }

  /** `\d`, restricted to ASCII digits. */
  predicate IsDigit(c: char) {
    '0' <= c <= '9'
  }

  predicate IsUpper(c: char) {
    'A' <= c <= 'Z'
  }

  /** `\w`, restricted to ASCII letters, digits and the underscore. */
  predicate IsWordChar(c: char) {
    ('a' <= c <= 'z') || IsUpper(c) || IsDigit(c) || c == '_'
  }

  // ---------------------------------------------------------------------------
  // str.lower
  // ---------------------------------------------------------------------------

  function LowerChar(c: char): (d: char)
    ensures !IsUpper(d)
    ensures IsUpper(c) || d == c
    ensures IsSpace(d) == IsSpace(c) && IsDigit(d) == IsDigit(c) && IsWordChar(d) == IsWordChar(c)
  {
    if IsUpper(c) then (c as int + 32) as char else c
  }

  /** `s.lower()` on ASCII letters; every other character is kept. */
  function Lower(s: string): (r: string)
    ensures |r| == |s|
    ensures forall i | 0 <= i < |s| :: r[i] == LowerChar(s[i])
  {
    seq(|s|, i requires 0 <= i < |s| => LowerChar(s[i]))
  }

  predicate NoUpper(s: string) {
    forall i | 0 <= i < |s| :: !IsUpper(s[i])
  }

  /** A string is its own lower-case form exactly when it has no upper-case letter. */
  lemma LowerFixedPoint(s: string)
    ensures NoUpper(Lower(s))
    ensures Lower(s) == s <==> NoUpper(s)
  {
    if NoUpper(s) {
      assert forall i | 0 <= i < |s| :: Lower(s)[i] == s[i];
    }
  }

  lemma LowerIdempotent(s: string)
    ensures Lower(Lower(s)) == Lower(s)
  {
    LowerFixedPoint(s);
    LowerFixedPoint(Lower(s));
  }

  // ---------------------------------------------------------------------------
  // str.split(), str.strip(), sep.join
  // ---------------------------------------------------------------------------

  /** What `str.split()` yields: non-empty and free of whitespace. */
  predicate IsWord(w: string) {
    w != [] && forall i | 0 <= i < |w| :: !IsSpace(w[i])
  }

  predicate AllWords(ws: seq<string>) {
    forall k | 0 <= k < |ws| :: IsWord(ws[k])
  }

  /** Length of the maximal whitespace-free prefix of `s`. */
  function WordLen(s: string): (n: nat)
    ensures n <= |s|
    ensures forall i | 0 <= i < n :: !IsSpace(s[i])
    ensures n < |s| ==> IsSpace(s[n])
  {
    if s == [] || IsSpace(s[0]) then 0 else 1 + WordLen(s[1..])
  }

  /** `s.split()`: the maximal whitespace-free runs of `s`, in order. */
  function Split(s: string): (ws: seq<string>)
    ensures AllWords(ws)
    ensures NoUpper(s) ==> forall k | 0 <= k < |ws| :: NoUpper(ws[k])
    decreases |s|
  {
    if s == [] then []
    else if IsSpace(s[0]) then Split(s[1..])
    else
      var n := WordLen(s);
      [s[..n]] + Split(s[n..])
  }

  /** `sep.join(parts)`. */
  function Join(parts: seq<string>, sep: string): string {
    if parts == [] then ""
    else if |parts| == 1 then parts[0]
    else parts[0] + sep + Join(parts[1..], sep)
  }

  function TrimLeft(s: string): string {
    if s != [] && IsSpace(s[0]) then TrimLeft(s[1..]) else s
  }

  function TrimRight(s: string): string {
    if s != [] && IsSpace(s[|s| - 1]) then TrimRight(s[..|s| - 1]) else s
  }

  /** `s.strip()`: `s` without its leading and trailing whitespace. */
  function Strip(s: string): (r: string)
    ensures r == [] || (!IsSpace(r[0]) && !IsSpace(r[|r| - 1]))
    ensures exists i, j | 0 <= i <= j <= |s| :: r == s[i..j]
                          && (forall k | 0 <= k < i :: IsSpace(s[k]))
                          && (forall k | j <= k < |s| :: IsSpace(s[k]))
  {
    var r := TrimRight(TrimLeft(s));
    StripSlice(s, r);
    r
  }

  lemma {:induction false} TrimLeftSlice(s: string)
    ensures var r := TrimLeft(s);
            (r == [] || !IsSpace(r[0]))
            && |r| <= |s| && r == s[|s| - |r|..]
            && forall k | 0 <= k < |s| - |r| :: IsSpace(s[k])
    decreases |s|
  {
    if s != [] && IsSpace(s[0]) {
      TrimLeftSlice(s[1..]);
    }
  }

  lemma {:induction false} TrimRightSlice(s: string)
    ensures var r := TrimRight(s);
            (r == [] || !IsSpace(r[|r| - 1]))
            && |r| <= |s| && r == s[..|r|]
            && forall k | |r| <= k < |s| :: IsSpace(s[k])
    decreases |s|
  {
    if s != [] && IsSpace(s[|s| - 1]) {
      TrimRightSlice(s[..|s| - 1]);
    }
  }

  lemma StripSlice(s: string, r: string)
    requires r == TrimRight(TrimLeft(s))
    ensures r == [] || (!IsSpace(r[0]) && !IsSpace(r[|r| - 1]))
    ensures exists i, j | 0 <= i <= j <= |s| :: r == s[i..j]
                          && (forall k | 0 <= k < i :: IsSpace(s[k]))
                          && (forall k | j <= k < |s| :: IsSpace(s[k]))
  {
    var l := TrimLeft(s);
    TrimLeftSlice(s);
    TrimRightSlice(l);
    var i := |s| - |l|;
    StripBounds(s, l, r, i);
  }

  /** Whitespace before `i` and after the trimmed `r` places `r` as a slice of `s`. */
  lemma StripBounds(s: string, l: string, r: string, i: nat)
    requires i <= |s| && l == s[i..] && |r| <= |l| && r == l[..|r|]
    requires l == [] || !IsSpace(l[0])
    requires r == [] || !IsSpace(r[|r| - 1])
    requires forall k | 0 <= k < i :: IsSpace(s[k])
    requires forall k | |r| <= k < |l| :: IsSpace(l[k])
    ensures r == [] || (!IsSpace(r[0]) && !IsSpace(r[|r| - 1]))
    ensures exists i, j | 0 <= i <= j <= |s| :: r == s[i..j]
                          && (forall k | 0 <= k < i :: IsSpace(s[k]))
                          && (forall k | j <= k < |s| :: IsSpace(s[k]))
  {
    var j := i + |r|;
    assert r == s[i..j];
    forall k | j <= k < |s|
      ensures IsSpace(s[k])
    {
      assert s[k] == l[k - i];
    }
  }

  // ---------------------------------------------------------------------------
  // Laws of split and join
  // ---------------------------------------------------------------------------

  /** Leading whitespace never changes the words. */
  lemma {:induction false} SplitTrimLeft(s: string)
    ensures Split(TrimLeft(s)) == Split(s)
    decreases |s|
  {
    if s != [] && IsSpace(s[0]) {
      SplitTrimLeft(s[1..]);
    }
  }

  lemma {:induction false} WordLenAppend(s: string, t: string)
    requires WordLen(s) < |s| || (t != [] && IsSpace(t[0]))
    ensures WordLen(s + t) == WordLen(s)
    decreases |s|
  {
    if s != [] && !IsSpace(s[0]) {
      assert (s + t)[1..] == s[1..] + t;
      WordLenAppend(s[1..], t);
    }
  }

  /** One trailing whitespace character never changes the words. */
  lemma {:induction false} SplitAppendSpace(s: string, c: char)
    requires IsSpace(c)
    ensures Split(s + [c]) == Split(s)
    decreases |s|
  {
    if s == [] {
      assert Split([c]) == Split([]);
    } else if IsSpace(s[0]) {
      assert (s + [c])[1..] == s[1..] + [c];
      SplitAppendSpace(s[1..], c);
    } else {
      var n := WordLen(s);
      WordLenAppend(s, [c]);
      assert (s + [c])[..n] == s[..n];
      assert (s + [c])[n..] == s[n..] + [c];
      SplitAppendSpace(s[n..], c);
    }
  }

  /** Trailing whitespace never changes the words. */
  lemma {:induction false} SplitTrimRight(s: string)
    ensures Split(TrimRight(s)) == Split(s)
    decreases |s|
  {
    if s != [] && IsSpace(s[|s| - 1]) {
      var t := s[..|s| - 1];
      assert s == t + [s[|s| - 1]];
      SplitAppendSpace(t, s[|s| - 1]);
      SplitTrimRight(t);
    }
  }

  /** `s.strip().split() == s.split()`. */
  lemma SplitStrip(s: string)
    ensures Split(Strip(s)) == Split(s)
  {
    SplitTrimRight(TrimLeft(s));
    SplitTrimLeft(s);
  }

  lemma {:induction false} SplitOfWordThenSpace(w: string, rest: string)
    requires IsWord(w)
    requires rest == [] || IsSpace(rest[0])
    ensures Split(w + rest) == [w] + Split(rest)
  {
    var s := w + rest;
    WordLenOfWord(w, rest);
    assert s[..|w|] == w;
    assert s[|w|..] == rest;
  }

  lemma {:induction false} WordLenOfWord(w: string, rest: string)
    requires forall i | 0 <= i < |w| :: !IsSpace(w[i])
    requires rest == [] || IsSpace(rest[0])
    ensures WordLen(w + rest) == |w|
    decreases |w|
  {
    if w != [] {
      assert (w + rest)[1..] == w[1..] + rest;
      WordLenOfWord(w[1..], rest);
    }
  }

  /** Round trip: splitting the space-joined words gives the words back. */
  lemma {:induction false} SplitJoin(ws: seq<string>)
    requires AllWords(ws)
    ensures Split(Join(ws, " ")) == ws
    decreases |ws|
  {
    if ws == [] {
    } else if |ws| == 1 {
      SplitOfWordThenSpace(ws[0], []);
      assert ws[0] + [] == ws[0];
    } else {
      var rest := Join(ws[1..], " ");
      SplitJoin(ws[1..]);
      SplitLeadingSpace(rest);
      SplitOfWordThenSpace(ws[0], " " + rest);
      JoinCons(ws, " ");
    }
  }

  lemma SplitLeadingSpace(s: string)
    ensures Split(" " + s) == Split(s)
  {
    var spaced := " " + s;
    assert spaced[0] == ' ' && spaced[1..] == s;
  }

  lemma JoinCons(parts: seq<string>, sep: string)
    requires |parts| >= 2
    ensures Join(parts, sep) == parts[0] + (sep + Join(parts[1..], sep))
  {
  }

  /** The shape `" ".join(s.split())` always has: every whitespace character is a single
      ' ' with non-whitespace on both sides, so none leads, trails or repeats. */
  predicate IsCollapsed(r: string) {
    forall i | 0 <= i < |r| && IsSpace(r[i]) :: r[i] == ' ' && 0 < i < |r| - 1 && !IsSpace(r[i - 1]) && !IsSpace(r[i + 1])
  }

  lemma {:induction false} JoinCollapsed(ws: seq<string>)
    requires AllWords(ws)
    ensures IsCollapsed(Join(ws, " "))
    ensures Join(ws, " ") == [] <==> ws == []
    ensures (forall k | 0 <= k < |ws| :: NoUpper(ws[k])) ==> NoUpper(Join(ws, " "))
    decreases |ws|
  {
    if |ws| > 1 {
      JoinCollapsed(ws[1..]);
      var w, rest := ws[0], Join(ws[1..], " ");
      var r := w + " " + rest;
      assert r == Join(ws, " ");
      forall i | 0 <= i < |r| && IsSpace(r[i])
        ensures r[i] == ' ' && 0 < i < |r| - 1 && !IsSpace(r[i - 1]) && !IsSpace(r[i + 1])
      {
        if i > |w| {
          assert r[i] == rest[i - |w| - 1];
        }
      }
    }
  }

  /** A collapsed string is rebuilt exactly by joining its words. */
  lemma {:induction false} JoinSplitCollapsed(r: string)
    requires IsCollapsed(r)
    ensures Join(Split(r), " ") == r
    decreases |r|
  {
    if r != [] {
      var n := WordLen(r);
      if n == |r| {
        assert r[..n] == r && r[n..] == [];
        assert Split(r) == [r];
      } else {
        CollapsedTail(r, n);
        JoinSplitCollapsed(r[n + 1..]);
        JoinOfFirstWord(r, n);
      }
    }
  }

  /** A text whose first word is followed by one space and a rest its words rebuild
      is rebuilt by its words. */
  lemma JoinOfFirstWord(r: string, n: nat)
    requires n == WordLen(r) && 0 < n < |r| - 1 && r[n] == ' '
    requires Split(r[n + 1..]) != [] && Join(Split(r[n + 1..]), " ") == r[n + 1..]
    ensures Join(Split(r), " ") == r
  {
    var w, tail := r[..n], r[n + 1..];
    AroundSpace(r, n);
    JoinOfWordThenRest(w, tail);
  }

  lemma AroundSpace(r: string, n: nat)
    requires n < |r| && r[n] == ' '
    ensures r == r[..n] + (" " + r[n + 1..])
  {
    assert r[..n + 1] == r[..n] + " ";
    assert r == r[..n + 1] + r[n + 1..];
  }

  /** A word, one space and a text that its words rebuild are rebuilt by their words. */
  lemma JoinOfWordThenRest(w: string, tail: string)
    requires IsWord(w) && Split(tail) != [] && Join(Split(tail), " ") == tail
    ensures Join(Split(w + (" " + tail)), " ") == w + (" " + tail)
  {
    SplitOfWordThenSpace(w, " " + tail);
    SplitLeadingSpace(tail);
    var words := [w] + Split(tail);
    JoinCons(words, " ");
    assert words[1..] == Split(tail);
  }

  /** After the first word of a collapsed string come one space and a collapsed rest
      that starts with a word. */
  lemma CollapsedTail(r: string, n: nat)
    requires IsCollapsed(r) && n == WordLen(r) && n < |r|
    ensures r[n] == ' ' && n > 0 && n + 1 < |r|
    ensures IsCollapsed(r[n + 1..]) && Split(r[n + 1..]) != []
  {
    var tail := r[n + 1..];
    forall i | 0 <= i < |tail| && IsSpace(tail[i])
      ensures tail[i] == ' ' && 0 < i < |tail| - 1 && !IsSpace(tail[i - 1]) && !IsSpace(tail[i + 1])
    {
      assert tail[i] == r[n + 1 + i];
    }
    assert !IsSpace(tail[0]);
  }

  // ---------------------------------------------------------------------------
  // str(int) and format(int, ",")
  // ---------------------------------------------------------------------------

  function DigitChar(d: nat): (c: char)
    requires d < 10
    ensures IsDigit(c) && c as int - '0' as int == d
  {
    ('0' as int + d) as char
  }

  /** Digits only, as `str(n)` prints a non-negative integer. */
  predicate AllDigits(s: string) {
    forall i | 0 <= i < |s| :: IsDigit(s[i])
  }

  /** `str(n)` for a non-negative integer. */
  function NatToString(n: nat): (s: string)
    ensures s != [] && AllDigits(s)
    ensures s[0] == '0' ==> n == 0 && |s| == 1
    decreases n
  {
    if n < 10 then [DigitChar(n)] else NatToString(n / 10) + [DigitChar(n % 10)]
  }

  /** The number a string of decimal digits denotes. */
  function DigitsValue(s: string): nat
    requires AllDigits(s)
  {
    if s == [] then 0 else DigitsValue(s[..|s| - 1]) * 10 + (s[|s| - 1] as int - '0' as int)
  }

  /** Round trip: reading back `str(n)` gives `n`. */
  lemma {:induction false} NatToStringValue(n: nat)
    ensures DigitsValue(NatToString(n)) == n
    decreases n
  {
    if n >= 10 {
      NatToStringValue(n / 10);
      var s := NatToString(n);
      assert s[..|s| - 1] == NatToString(n / 10);
    }
  }

  /** `str(n)` is one-to-one. */
  lemma NatToStringInjective(m: nat, n: nat)
    requires NatToString(m) == NatToString(n)
    ensures m == n
  {
    NatToStringValue(m);
    NatToStringValue(n);
  }

  /** `str(i)` for any integer. */
  function IntToString(i: int): string {
    if i < 0 then "-" + NatToString(-i) else NatToString(i)
  }

  /** The digits of `ds` with a ',' before every group of three counted from the right. */
  function GroupThousands(ds: string): (r: string)
    decreases |ds|
  {
    if |ds| <= 3 then ds else GroupThousands(ds[..|ds| - 3]) + "," + ds[|ds| - 3..]
  }

  /** `s` with every ',' taken out. */
  function RemoveCommas(s: string): string {
    if s == [] then [] else (if s[0] == ',' then [] else [s[0]]) + RemoveCommas(s[1..])
  }

  lemma {:induction false} RemoveCommasAppend(s: string, t: string)
    ensures RemoveCommas(s + t) == RemoveCommas(s) + RemoveCommas(t)
    decreases |s|
  {
    if s == [] {
      assert s + t == t;
    } else {
      var head := if s[0] == ',' then [] else [s[0]];
      ConsAppend(s, t);
      RemoveCommasAppend(s[1..], t);
      assert RemoveCommas(s + t) == head + RemoveCommas(s[1..] + t);
      assert RemoveCommas(s) == head + RemoveCommas(s[1..]);
      AppendAssoc(head, RemoveCommas(s[1..]), RemoveCommas(t));
    }
  }

  lemma ConsAppend(s: string, t: string)
    requires s != []
    ensures (s + t)[0] == s[0] && (s + t)[1..] == s[1..] + t
  {
  }

  lemma AppendAssoc(a: string, b: string, c: string)
    ensures a + (b + c) == (a + b) + c
  {
  }

  lemma {:induction false} RemoveCommasOfDigits(ds: string)
    requires AllDigits(ds)
    ensures RemoveCommas(ds) == ds
    decreases |ds|
  {
    if ds != [] {
      RemoveCommasOfDigits(ds[1..]);
    }
  }

  /** Round trip: taking the commas back out of the grouped digits gives the digits. */
  lemma {:induction false} GroupThousandsUngroup(ds: string)
    requires AllDigits(ds)
    ensures RemoveCommas(GroupThousands(ds)) == ds
    decreases |ds|
  {
    if |ds| <= 3 {
      RemoveCommasOfDigits(ds);
    } else {
      var p, q := ds[..|ds| - 3], ds[|ds| - 3..];
      var g := GroupThousands(p);
      GroupThousandsUngroup(p);
      RemoveCommasOfDigits(q);
      assert RemoveCommas(",") == [] by {
        assert ","[1..] == [];
      }
      RemoveCommasAppend(g, ",");
      RemoveCommasAppend(g + ",", q);
      assert GroupThousands(ds) == (g + ",") + q;
      assert RemoveCommas(GroupThousands(ds)) == p + q;
      assert ds == p + q;
    }
  }

  /** Grouping only inserts commas: removing them gives the digits back, and a comma
      stands exactly at the positions a multiple of four from the right end. */
  lemma {:induction false} GroupThousandsShape(ds: string)
    requires ds != [] && AllDigits(ds)
    ensures var r := GroupThousands(ds);
            |r| == |ds| + (|ds| - 1) / 3
            && (forall i | 0 <= i < |r| :: r[i] == ',' <==> (|r| - i) % 4 == 0)
            && (forall i | 0 <= i < |r| && r[i] != ',' :: IsDigit(r[i]))
    decreases |ds|
  {
    if |ds| > 3 {
      var p, q := ds[..|ds| - 3], ds[|ds| - 3..];
      GroupThousandsShape(p);
      var g := GroupThousands(p);
      assert AllDigits(q) by {
        forall k | 0 <= k < |q| ensures IsDigit(q[k]) {
          assert q[k] == ds[|ds| - 3 + k];
        }
      }
      GroupedTail(g, q);
      assert GroupThousands(ds) == g + "," + q;
      assert (|ds| - 1) / 3 == (|p| - 1) / 3 + 1;
    }
  }

  /** One more group behind digits already grouped keeps the comma positions. */
  lemma GroupedTail(g: string, q: string)
    requires |q| == 3 && AllDigits(q)
    requires forall i | 0 <= i < |g| :: g[i] == ',' <==> (|g| - i) % 4 == 0
    requires forall i | 0 <= i < |g| && g[i] != ',' :: IsDigit(g[i])
    ensures var r := g + "," + q;
            && (forall i | 0 <= i < |r| :: r[i] == ',' <==> (|r| - i) % 4 == 0)
            && (forall i | 0 <= i < |r| && r[i] != ',' :: IsDigit(r[i]))
  {
    var r := g + "," + q;
    forall i | 0 <= i < |r|
      ensures (r[i] == ',' <==> (|r| - i) % 4 == 0) && (r[i] != ',' ==> IsDigit(r[i]))
    {
      if i < |g| {
        assert r[i] == g[i];
        ModFourShift(|g| - i);
      } else if i > |g| {
        assert r[i] == q[i - |g| - 1];
      }
    }
  }

  lemma ModFourShift(a: int)
    ensures (a + 4) % 4 == a % 4
  {
  }

  /** `format(i, ",")`: the sign of `i`, then the digits of `|i|` grouped by thousands,
      starting with a digit and with a comma at every fourth place from the right end.
      Taking the commas out again gives `str(i)`. */
  function FormatThousands(i: int): (r: string)
    ensures r != []
    ensures (r[0] == '-') == (i < 0)
    ensures RemoveCommas(r) == IntToString(i)
    ensures forall k | 0 <= k < |r| :: r[k] == '-' || r[k] == ',' || IsDigit(r[k])
    ensures forall k | (if i < 0 then 1 else 0) <= k < |r| :: r[k] == ',' <==> (|r| - k) % 4 == 0
    ensures (if i < 0 then 1 else 0) < |r| && IsDigit(r[if i < 0 then 1 else 0])
  {
    var ds := NatToString(if i < 0 then -i else i);
    var sign, g := if i < 0 then "-" else "", GroupThousands(ds);
    GroupThousandsShape(ds);
    GroupThousandsHead(ds);
    SignedShape(sign, g);
    GroupThousandsUngroup(ds);
    RemoveCommasAppend(sign, g);
    assert RemoveCommas(sign) == sign;
    sign + g
  }

  /** Grouping starts with the leading digit. */
  lemma {:induction false} GroupThousandsHead(ds: string)
    requires ds != []
    ensures GroupThousands(ds) != [] && GroupThousands(ds)[0] == ds[0]
    decreases |ds|
  {
    if |ds| > 3 {
      GroupThousandsHead(ds[..|ds| - 3]);
    }
  }

  /** An optional minus sign in front of grouped digits keeps the grouping's shape. */
  lemma SignedShape(sign: string, g: string)
    requires sign == "" || sign == "-"
    requires g != [] && IsDigit(g[0])
    requires forall k | 0 <= k < |g| :: g[k] == ',' <==> (|g| - k) % 4 == 0
    requires forall k | 0 <= k < |g| && g[k] != ',' :: IsDigit(g[k])
    ensures (sign + g)[0] == '-' <==> sign == "-"
    ensures forall k | 0 <= k < |sign + g| :: (sign + g)[k] == '-' || (sign + g)[k] == ',' || IsDigit((sign + g)[k])
    ensures forall k | |sign| <= k < |sign + g| :: (sign + g)[k] == ',' <==> (|sign + g| - k) % 4 == 0
    ensures |sign| < |sign + g| && IsDigit((sign + g)[|sign|])
  {
    var r := sign + g;
    forall k | 0 <= k < |r|
      ensures (r[k] == '-' || r[k] == ',' || IsDigit(r[k]))
      ensures |sign| <= k ==> (r[k] == ',' <==> (|r| - k) % 4 == 0)
    {
      if |sign| <= k {
        assert r[k] == g[k - |sign|];
      }
    }
  }

  /** The renderings the repository's tests expect for 12345 and 1234567890. */
  lemma FormatThousandsSmallExample()
    ensures FormatThousands(12345) == "12,345"
  {
    assert NatToString(12) == "12";
    assert NatToString(123) == "123";
    assert NatToString(1234) == "1234";
    assert NatToString(12345) == "12345";
    assert "12345"[..2] == "12" && "12345"[2..] == "345";
  }

  lemma FormatThousandsLargeExample()
    ensures FormatThousands(1234567890) == "1,234,567,890"
  {
    LargeExampleDigits();
    LargeExampleGroups();
  }

  lemma LargeExampleDigits()
    ensures NatToString(1234567890) == "1234567890"
  {
    assert NatToString(12) == "12";
    assert NatToString(123) == "123";
    assert NatToString(1234) == "1234";
    assert NatToString(12345) == "12345";
    assert NatToString(123456) == "123456";
    assert NatToString(1234567) == "1234567";
    assert NatToString(12345678) == "12345678";
    assert NatToString(123456789) == "123456789";
  }

  lemma LargeExampleGroups()
    ensures GroupThousands("1234567890") == "1,234,567,890"
  {
    GroupStep("1234", "1", "234");
    GroupStep("1234567", "1234", "567");
    GroupStep("1234567890", "1234567", "890");
  }

  /** One step of the grouping: the last three digits after a comma. */
  lemma GroupStep(ds: string, head: string, last: string)
    requires ds == head + last && |last| == 3 && head != []
    ensures GroupThousands(ds) == GroupThousands(head) + "," + last
  {
    assert ds[..|ds| - 3] == head && ds[|ds| - 3..] == last;
  }
}
