/** The few operations on Python `str` values that the parsers rely on:
    `isspace`, `strip`, `split()`, `split(sep)`, `sep.join`, `in` (substring),
    `replace(c, "")`, `int()` and `str()` of an integer. */
module Text {
  import opened Results

  /** The characters for which Python's `str.isspace()` holds; `strip()` and
      `split()` without arguments use exactly this set. */
  predicate IsSpace(c: char) {
    ('\U{9}' <= c <= '\U{D}') || ('\U{1C}' <= c <= '\U{20}') || c == '\U{85}' || c == '\U{A0}'
    || c == '\U{1680}' || ('\U{2000}' <= c <= '\U{200A}') || c == '\U{2028}' || c == '\U{2029}'
    || c == '\U{202F}' || c == '\U{205F}' || c == '\U{3000}'
  }

  predicate NoSpace(s: string) {
    forall i :: 0 <= i < |s| ==> !IsSpace(s[i])
  }

  predicate AllSpace(s: string) {
    forall i :: 0 <= i < |s| ==> IsSpace(s[i])
  }

  /** `s.strip()`: drops the whitespace at both ends. What is left is empty
      exactly when `s` is blank, and otherwise neither starts nor ends with
      whitespace. */
  function Strip(s: string): (r: string)
    ensures r == [] <==> AllSpace(s)
    ensures r != [] ==> !IsSpace(r[0]) && !IsSpace(r[|r| - 1])
    ensures |r| <= |s|
  {
    if s != [] && IsSpace(s[0]) then Strip(s[1..])
    else if s != [] && IsSpace(s[|s| - 1]) then Strip(s[..|s| - 1])
    else s
  }

  /** The bounds of what `strip()` keeps: a slice of `s` with only whitespace
      outside it. */
  lemma {:induction false} StripBounds(s: string) returns (i: nat, j: nat)
    ensures i <= j <= |s| && Strip(s) == s[i..j]
    ensures AllSpace(s[..i]) && AllSpace(s[j..])
    decreases |s|
  {
    if s != [] && IsSpace(s[0]) {
      var t := s[1..];
      var i', j' := StripBounds(t);
      i, j := StripFront(s, i', j');
    } else if s != [] && IsSpace(s[|s| - 1]) {
      var t := s[..|s| - 1];
      i, j := StripBounds(t);
      StripBack(s, i, j);
    } else {
      i, j := 0, |s|;
      assert s[i..j] == s;
    }
  }

  lemma {:induction false} StripFront(s: string, i': nat, j': nat) returns (i: nat, j: nat)
    requires s != [] && IsSpace(s[0])
    requires i' <= j' <= |s| - 1 && Strip(s[1..]) == s[1..][i'..j']
    requires AllSpace(s[1..][..i']) && AllSpace(s[1..][j'..])
    ensures i <= j <= |s| && Strip(s) == s[i..j]
    ensures AllSpace(s[..i]) && AllSpace(s[j..])
  {
    var t := s[1..];
    i, j := i' + 1, j' + 1;
    assert Strip(s) == Strip(t);
    assert forall k | 0 <= k < j - i :: s[i..j][k] == t[i'..j'][k];
    SpaceBeforeSlice(s, i');
    assert forall k | 0 <= k < |s| - j :: s[j..][k] == t[j'..][k];
  }

  lemma {:induction false} SpaceBeforeSlice(s: string, n: nat)
    requires s != [] && IsSpace(s[0])
    requires n < |s| && AllSpace(s[1..][..n])
    ensures AllSpace(s[..n + 1])
  {
    var p, q := s[..n + 1], s[1..][..n];
    forall k | 0 <= k < |p|
      ensures IsSpace(p[k])
    {
      if k > 0 {
        assert p[k] == q[k - 1];
      }
    }
  }

  lemma {:induction false} StripBack(s: string, i: nat, j: nat)
    requires s != [] && !IsSpace(s[0]) && IsSpace(s[|s| - 1])
    requires i <= j <= |s| - 1 && Strip(s[..|s| - 1]) == s[..|s| - 1][i..j]
    requires AllSpace(s[..|s| - 1][..i]) && AllSpace(s[..|s| - 1][j..])
    ensures Strip(s) == s[i..j]
    ensures AllSpace(s[..i]) && AllSpace(s[j..])
  {
    var t := s[..|s| - 1];
    assert Strip(s) == Strip(t);
    assert forall k | 0 <= k < j - i :: s[i..j][k] == t[i..j][k];
    assert forall k | 0 <= k < |t| - j :: s[j..][k] == t[j..][k];
  }

  /** What `strip()` keeps is a slice of `s`, and everything it drops is
      whitespace at the two ends. */
  lemma {:induction false} StripInfix(s: string)
    ensures exists i, j :: 0 <= i <= j <= |s| && Strip(s) == s[i..j] && AllSpace(s[..i]) && AllSpace(s[j..])
  {
    var i, j := StripBounds(s);
  }

  lemma {:induction false} StripNoSpace(s: string)
    requires NoSpace(s)
    ensures Strip(s) == s
  {
  }

  /** Stripping twice is stripping once. */
  lemma {:induction false} StripIdempotent(s: string)
    ensures Strip(Strip(s)) == Strip(s)
  {
  }

  /** Length of the longest whitespace-free prefix of `s`. */
  function WordLength(s: string): (n: nat)
    ensures n <= |s|
    ensures NoSpace(s[..n])
    ensures n < |s| ==> IsSpace(s[n])
  {
    if s == [] || IsSpace(s[0]) then 0 else 1 + WordLength(s[1..])
  }

  /** `s.split()`: the maximal runs of non-whitespace characters, in order. */
  function Words(s: string): (ws: seq<string>)
    ensures forall w <- ws :: w != [] && NoSpace(w)
    decreases |s|
  {
    if s == [] then []
    else if IsSpace(s[0]) then Words(s[1..])
    else
      var n := WordLength(s);
      [s[..n]] + Words(s[n..])
  }

  /** A string that is not blank splits into at least one word; this is why
      the source may read the first token of every stripped, non-empty line. */
  lemma {:induction false} WordsOfNonBlank(s: string)
    requires !AllSpace(s)
    ensures Words(s) != []
  {
    if IsSpace(s[0]) {
      var i :| 0 <= i < |s| && !IsSpace(s[i]);
      assert s[1..][i - 1] == s[i];
      WordsOfNonBlank(s[1..]);
    }
  }

  /** A blank string has no words. */
  lemma {:induction false} WordsBlank(g: string)
    requires AllSpace(g)
    ensures Words(g) == []
    decreases |g|
  {
    if g != [] {
      WordsBlank(g[1..]);
    }
  }

  /** The first word of `g + w + t` is `w` when `g` is whitespace, `w` is a
      non-empty run of non-whitespace and `t` does not continue it: `split()`
      takes maximal runs, however much whitespace separates them. */
  lemma {:induction false} WordsCons(g: string, w: string, t: string)
    requires AllSpace(g) && w != [] && NoSpace(w)
    requires t == [] || IsSpace(t[0])
    ensures Words(g + w + t) == [w] + Words(t)
    decreases |g|
  {
    if g != [] {
      assert (g + w + t)[1..] == g[1..] + w + t;
      WordsCons(g[1..], w, t);
    } else {
      var s := g + w + t;
      assert s == w + t;
      WordLengthOfPrefix(w, t);
      assert s[..|w|] == w;
      assert s[|w|..] == t;
    }
  }

  /** The words joined by single spaces. */
  function Unwords(ws: seq<string>): string {
    if ws == [] then [] else if |ws| == 1 then ws[0] else ws[0] + " " + Unwords(ws[1..])
  }

  lemma {:induction false} WordLengthOfPrefix(w: string, t: string)
    requires NoSpace(w)
    requires t == [] || IsSpace(t[0])
    ensures WordLength(w + t) == |w|
  {
    if w != [] {
      assert (w + t)[1..] == w[1..] + t;
      WordLengthOfPrefix(w[1..], t);
    }
  }

  /** `split()` undoes joining non-empty, whitespace-free words with spaces. */
  lemma {:induction false} WordsUnwords(ws: seq<string>)
    requires forall w <- ws :: w != [] && NoSpace(w)
    ensures Words(Unwords(ws)) == ws
  {
    if ws == [] {
    } else if |ws| == 1 {
      var w := ws[0];
      WordLengthOfPrefix(w, []);
      assert w + [] == w;
      assert w[|w|..] == [];
      assert Words(w) == [w[..|w|]] + Words(w[|w|..]);
    } else {
      var w, rest := ws[0], Unwords(ws[1..]);
      var s := w + " " + rest;
      WordLengthOfPrefix(w, " " + rest);
      assert s == w + (" " + rest);
      assert s[..|w|] == w;
      assert s[|w|..] == " " + rest;
      assert (" " + rest)[1..] == rest;
      assert forall v <- ws[1..] :: v in ws;
      WordsUnwords(ws[1..]);
      assert Words(s) == [w] + Words(" " + rest);
    }
  }

  /** `sub` occurs in `s` starting at index `i`. */
  predicate OccursAt(s: string, sub: string, i: int) {
    0 <= i && i + |sub| <= |s| && s[i..i + |sub|] == sub
  }

  /** Python's `sub in s` for strings. */
  predicate Contains(s: string, sub: string)
    decreases |s|
  {
    (|sub| <= |s| && s[..|sub|] == sub) || (s != [] && Contains(s[1..], sub))
  }

  /** `Contains` is the substring test: some index where `sub` occurs. */
  lemma {:induction false} ContainsIff(s: string, sub: string)
    ensures Contains(s, sub) <==> exists i :: OccursAt(s, sub, i)
    decreases |s|
  {
    if |sub| <= |s| && s[..|sub|] == sub {
      assert OccursAt(s, sub, 0);
    } else if s == [] {
    } else {
      ContainsIff(s[1..], sub);
      if exists i :: OccursAt(s[1..], sub, i) {
        var i :| OccursAt(s[1..], sub, i);
        OccursAtShift(s, sub, i);
      }
      if exists i :: OccursAt(s, sub, i) {
        var i :| OccursAt(s, sub, i);
        assert i != 0;
        OccursAtShift(s, sub, i - 1);
      }
    }
  }

  /** An occurrence in the tail is an occurrence one index further on in `s`. */
  lemma {:induction false} OccursAtShift(s: string, sub: string, i: nat)
    requires s != []
    ensures OccursAt(s[1..], sub, i) <==> OccursAt(s, sub, i + 1)
  {
    if i + |sub| <= |s[1..]| {
      var here, there := s[i + 1..i + 1 + |sub|], s[1..][i..i + |sub|];
      assert forall k | 0 <= k < |here| :: here[k] == there[k];
    }
  }

  /** `s.split(c)` for a one-character separator: the pieces between the
      occurrences of `c`; there is always at least one (`"".split(",") == [""]`). */
  function SplitOn(s: string, c: char): (parts: seq<string>)
    ensures |parts| >= 1
    ensures forall p <- parts :: c !in p
  {
    if s == [] then [[]]
    else
      var rest := SplitOn(s[1..], c);
      if s[0] == c then [[]] + rest else [[s[0]] + rest[0]] + rest[1..]
  }

  /** `c.join(parts)`: the parts with one `c` between consecutive parts. */
  function Join(parts: seq<string>, c: char): string {
    if parts == [] then [] else if |parts| == 1 then parts[0] else parts[0] + [c] + Join(parts[1..], c)
  }

  /** There is one more piece than there are separators. */
  lemma {:induction false} SplitOnCount(s: string, c: char)
    ensures |SplitOn(s, c)| == multiset(s)[c] + 1
  {
    if s != [] {
      SplitOnCount(s[1..], c);
      assert s == [s[0]] + s[1..];
      assert multiset(s) == multiset([s[0]]) + multiset(s[1..]);
    }
  }

  /** Joining the pieces with the separator gives the string back. */
  lemma {:induction false} JoinSplitOn(s: string, c: char)
    ensures Join(SplitOn(s, c), c) == s
  {
    if s != [] {
      var rest := SplitOn(s[1..], c);
      JoinSplitOn(s[1..], c);
      if s[0] == c {
        assert SplitOn(s, c) == [[]] + rest;
        assert ([[]] + rest)[1..] == rest;
      } else {
        var parts := [[s[0]] + rest[0]] + rest[1..];
        assert parts[1..] == rest[1..];
        if |rest| > 1 {
          assert Join(rest, c) == rest[0] + [c] + Join(rest[1..], c);
        }
      }
    }
  }

  /** Splitting a join of separator-free pieces gives the pieces back. */
  lemma {:induction false} SplitOnJoin(parts: seq<string>, c: char)
    requires parts != []
    requires forall p <- parts :: c !in p
    ensures SplitOn(Join(parts, c), c) == parts
    decreases |Join(parts, c)|
  {
    var p := parts[0];
    if p == [] {
      if |parts| > 1 {
        assert Join(parts, c) == [c] + Join(parts[1..], c);
        assert ([c] + Join(parts[1..], c))[1..] == Join(parts[1..], c);
        SplitOnJoin(parts[1..], c);
        assert [[]] + parts[1..] == parts;
      }
    } else {
      var tail := [p[1..]] + parts[1..];
      assert parts[0] in parts;
      assert p == [p[0]] + p[1..];
      assert forall q <- tail :: q == p[1..] || q in parts;
      assert p[0] in p;
      var s := Join(parts, c);
      assert s == [p[0]] + Join(tail, c) by {
        if |parts| > 1 {
          assert Join(tail, c) == p[1..] + [c] + Join(parts[1..], c);
        }
      }
      assert s[0] == p[0] && s[1..] == Join(tail, c);
      SplitOnJoin(tail, c);
      assert SplitOn(s, c) == [[p[0]] + tail[0]] + tail[1..];
      assert tail[1..] == parts[1..];
      assert [p[0]] + tail[0] == p;
      assert parts == [p] + parts[1..];
    }
  }

  /** `s.replace(c, "")` for a one-character `c`. */
  function RemoveChar(s: string, c: char): (r: string)
    ensures c !in r
  {
    if s == [] then [] else (if s[0] == c then [] else [s[0]]) + RemoveChar(s[1..], c)
  }

  /** Exactly the occurrences of `c` are dropped. */
  lemma {:induction false} RemoveCharLength(s: string, c: char)
    ensures |RemoveChar(s, c)| == |s| - multiset(s)[c]
  {
    if s != [] {
      RemoveCharLength(s[1..], c);
      assert s == [s[0]] + s[1..];
      assert multiset(s) == multiset([s[0]]) + multiset(s[1..]);
    }
  }

  /** Every other character keeps its number of occurrences. */
  lemma {:induction false} RemoveCharOthers(s: string, c: char, d: char)
    requires d != c
    ensures multiset(RemoveChar(s, c))[d] == multiset(s)[d]
  {
    if s != [] {
      var rest := RemoveChar(s[1..], c);
      RemoveCharOthers(s[1..], c, d);
      assert s == [s[0]] + s[1..];
      assert RemoveChar(s, c) == (if s[0] == c then [] else [s[0]]) + rest;
      assert multiset(s)[d] == multiset([s[0]])[d] + multiset(s[1..])[d];
    }
  }

  /** Removal works piece by piece, so the remaining characters keep their order. */
  lemma {:induction false} RemoveCharAppend(s: string, t: string, c: char)
    ensures RemoveChar(s + t, c) == RemoveChar(s, c) + RemoveChar(t, c)
  {
    if s == [] {
      assert s + t == t;
    } else {
      var head := if s[0] == c then [] else [s[0]];
      var rest, tail := RemoveChar(s[1..], c), RemoveChar(t, c);
      RemoveCharAppend(s[1..], t, c);
      RemoveCharHead(s, t, c);
      assert RemoveChar(s, c) == head + rest;
      assert head + (rest + tail) == (head + rest) + tail;
    }
  }

  lemma {:induction false} RemoveCharHead(s: string, t: string, c: char)
    requires s != []
    ensures RemoveChar(s + t, c) == (if s[0] == c then [] else [s[0]]) + RemoveChar(s[1..] + t, c)
  {
    assert (s + t)[0] == s[0];
    assert (s + t)[1..] == s[1..] + t;
  }

  lemma {:induction false} RemoveCharAbsent(s: string, c: char)
    requires c !in s
    ensures RemoveChar(s, c) == s
  {
    if s != [] {
      RemoveCharAbsent(s[1..], c);
    }
  }

  predicate IsDigit(c: char) {
    '0' <= c <= '9'
  }

  predicate AllDigits(s: string) {
    forall i :: 0 <= i < |s| ==> IsDigit(s[i])
  }

  function DigitValue(c: char): nat
    requires IsDigit(c)
  {
    (c as int) - ('0' as int)
  }

  function DigitChar(d: nat): (c: char)
    requires d < 10
    ensures IsDigit(c) && DigitValue(c) == d
  {
    ('0' as int + d) as char
  }

  /** The value of a string of decimal digits (leading zeros allowed). */
  function DigitsValue(s: string): nat
    requires AllDigits(s)
  {
    if s == [] then 0 else 10 * DigitsValue(s[..|s| - 1]) + DigitValue(s[|s| - 1])
  }

  /** The decimal digits of `n`. */
  function NatToDigits(n: nat): string {
    if n < 10 then [DigitChar(n)] else NatToDigits(n / 10) + [DigitChar(n % 10)]
  }

  /** `NatToDigits` gives digits whose value is `n`, without a leading zero. */
  lemma {:induction false} NatToDigitsValue(n: nat)
    ensures var s := NatToDigits(n);
      s != [] && AllDigits(s) && DigitsValue(s) == n && (s[0] == '0' ==> n == 0)
  {
    if n >= 10 {
      NatToDigitsValue(n / 10);
      var s := NatToDigits(n);
      assert s[..|s| - 1] == NatToDigits(n / 10);
    }
  }

  /** Python's `str(n)` for an integer `n`. */
  function IntToString(n: int): string {
    if n < 0 then "-" + NatToDigits(-n) else NatToDigits(n)
  }

  /** A sign-optional decimal literal. */
  function ParseDecimal(s: string): Option<int> {
    if s != [] && (s[0] == '+' || s[0] == '-') then
      if |s| >= 2 && AllDigits(s[1..]) then
        var v: int := DigitsValue(s[1..]);
        Some(if s[0] == '-' then -v else v)
      else None
    else if s != [] && AllDigits(s) then Some(DigitsValue(s))
    else None
  }

  /** A string of digits as `str()` writes it: no leading zero except in "0". */
  predicate Canonical(d: string) {
    d != [] && AllDigits(d) && (d[0] == '0' ==> |d| == 1)
  }

  lemma {:induction false} DigitsValueLeading(d: string)
    requires d != [] && AllDigits(d) && d[0] != '0'
    ensures DigitsValue(d) >= 1
  {
    if |d| > 1 {
      DigitsValueLeading(d[..|d| - 1]);
    }
  }

  /** `str()` gives back a canonical digit string from its value. */
  lemma {:induction false} NatToDigitsOfValue(d: string)
    requires Canonical(d)
    ensures NatToDigits(DigitsValue(d)) == d
  {
    var last := d[|d| - 1];
    if |d| == 1 {
      assert DigitChar(DigitValue(last)) == last;
    } else {
      var init := d[..|d| - 1];
      assert init[0] == d[0] != '0';
      DigitsValueLeading(init);
      NatToDigitsOfValue(init);
      var v := DigitsValue(d);
      assert v == 10 * DigitsValue(init) + DigitValue(last);
      assert v / 10 == DigitsValue(init) && v % 10 == DigitValue(last);
      assert DigitChar(DigitValue(last)) == last;
      assert d == init + [last];
    }
  }

  /** `str(int(s)) == s` for every string `str()` can produce: canonical
      digits, with a `-` in front unless they are "0". */
  lemma {:induction false} IntToStringParse(s: string, d: string)
    requires Canonical(d)
    requires s == d || (s == "-" + d && d != "0")
    ensures ParseDecimal(s).Some? && IntToString(ParseDecimal(s).value) == s
  {
    NatToDigitsOfValue(d);
    if s != d {
      assert s[1..] == d;
    }
  }

  /** Python's `int(s)` for a string in base 10: surrounding whitespace is
      ignored, the rest must be an optional sign followed by digits. */
  function ParseInt(s: string): Option<int> {
    ParseDecimal(Strip(s))
  }

  /** `int(str(n)) == n`. */
  lemma {:induction false} ParseIntToString(n: int)
    ensures ParseInt(IntToString(n)) == Some(n)
  {
    var s := IntToString(n);
    NatToDigitsValue(if n < 0 then -n else n);
    assert NoSpace(s);
    StripNoSpace(s);
    if n < 0 {
      assert s[1..] == NatToDigits(-n);
    }
  }
}
