/**
 * String helpers standing in for the Python `str` methods the library
 * relies on: `strip`, `rstrip(",")`, `split()`, `split(sep)`, `join`,
 * `find`, `ljust`, `lower`, and the decimal `int()` / `str()` conversions.
 * Character classes are ASCII (see README, "Left out").
 */
module Text {
  import opened Wrappers

  /**
   * Whitespace as `str.strip()`, `str.split()`, `int()` and regex `\s` see
   * it, restricted to ASCII: space, tab, line feed, vertical tab, form
   * feed, carriage return and the four separators `\x1c`-`\x1f`.
   */
  predicate IsSpace(c: char) {
    c == ' ' || ('\t' <= c <= '\r') || ('\U{001C}' <= c <= '\U{001F}')
  }

  /** Regex `\w`, restricted to ASCII. */
  predicate IsWordChar(c: char) {
    ('a' <= c <= 'z') || ('A' <= c <= 'Z') || ('0' <= c <= '9') || c == '_'
  }

  predicate IsDigit(c: char) {
    '0' <= c <= '9'
  }

  predicate IsUpper(c: char) {
    'A' <= c <= 'Z'
  }

  function LowerChar(c: char): (r: char)
    ensures !IsUpper(r)
    ensures IsWordChar(c) ==> IsWordChar(r)
  {
    if IsUpper(c) then (c as int + 32) as char else c
  }

  /** `str.lower()` on ASCII text. */
  function Lower(s: string): (r: string)
    ensures |r| == |s|
    ensures forall i :: 0 <= i < |s| ==> r[i] == LowerChar(s[i])
    ensures forall i :: 0 <= i < |r| ==> !IsUpper(r[i])
  {
    seq(|s|, i requires 0 <= i < |s| => LowerChar(s[i]))
  }

  // ---------------------------------------------------------------------
  // Runs of characters

  /** The end of the run of whitespace starting at `i`. */
  function SpaceEnd(s: string, i: nat): (r: nat)
    requires i <= |s|
    ensures i <= r <= |s|
    ensures forall k {:trigger IsSpace(s[k])} :: i <= k < r ==> IsSpace(s[k])
    ensures r < |s| ==> !IsSpace(s[r])
    decreases |s| - i
  {
    if i < |s| && IsSpace(s[i]) then SpaceEnd(s, i + 1) else i
  }

  /** The end of the run of non-whitespace starting at `i`. */
  function NonSpaceEnd(s: string, i: nat): (r: nat)
    requires i <= |s|
    ensures i <= r <= |s|
    ensures forall k {:trigger IsSpace(s[k])} :: i <= k < r ==> !IsSpace(s[k])
    ensures r < |s| ==> IsSpace(s[r])
    decreases |s| - i
  {
    if i < |s| && !IsSpace(s[i]) then NonSpaceEnd(s, i + 1) else i
  }

  /** The end of the run of word characters starting at `i`. */
  function WordEnd(s: string, i: nat): (r: nat)
    requires i <= |s|
    ensures i <= r <= |s|
    ensures forall k {:trigger IsWordChar(s[k])} :: i <= k < r ==> IsWordChar(s[k])
    ensures r < |s| ==> !IsWordChar(s[r])
    decreases |s| - i
  {
    if i < |s| && IsWordChar(s[i]) then WordEnd(s, i + 1) else i
  }

  /** The start of the run of whitespace that ends at `j`. */
  function SpaceStartBefore(s: string, j: nat): (r: nat)
    requires j <= |s|
    ensures r <= j
    ensures forall k {:trigger IsSpace(s[k])} :: r <= k < j ==> IsSpace(s[k])
    ensures r > 0 ==> !IsSpace(s[r - 1])
    decreases j
  {
    if j > 0 && IsSpace(s[j - 1]) then SpaceStartBefore(s, j - 1) else j
  }

  // ---------------------------------------------------------------------
  // strip / rstrip

  /**
   * `str.strip()`: drops leading and trailing whitespace. The result is the
   * slice of `s` after its leading whitespace run, everything after the
   * slice is whitespace, and the slice neither starts nor ends with
   * whitespace.
   */
  function Strip(s: string): (r: string)
    ensures |r| <= |s| - SpaceEnd(s, 0)
    ensures r == s[SpaceEnd(s, 0)..SpaceEnd(s, 0) + |r|]
    ensures forall k :: SpaceEnd(s, 0) + |r| <= k < |s| ==> IsSpace(s[k])
    ensures |r| > 0 ==> !IsSpace(r[0]) && !IsSpace(r[|r| - 1])
  {
    var a := SpaceEnd(s, 0);
    var t := s[a..];
    var e := SpaceStartBefore(t, |t|);
    assert forall k :: a + e <= k < |s| ==> s[k] == t[k - a];
    t[..e]
  }

  lemma StripUnchanged(s: string)
    requires |s| > 0 ==> !IsSpace(s[0]) && !IsSpace(s[|s| - 1])
    ensures Strip(s) == s
  {
    assert SpaceEnd(s, 0) == 0;
    assert s[0..] == s;
  }

  lemma StripIdempotent(s: string)
    ensures Strip(Strip(s)) == Strip(s)
  {
    StripUnchanged(Strip(s));
  }

  /** `str.rstrip(c)` for a single character `c`. */
  function RStripChar(s: string, c: char): (r: string)
    ensures |r| <= |s| && r == s[..|r|]
    ensures |r| > 0 ==> r[|r| - 1] != c
    ensures forall k :: |r| <= k < |s| ==> s[k] == c
    decreases |s|
  {
    if |s| > 0 && s[|s| - 1] == c then RStripChar(s[..|s| - 1], c) else s
  }

  // ---------------------------------------------------------------------
  // find / split / join

  /** `s.find(c, from)`: the first index at or after `from` holding `c`. */
  function FindChar(s: string, c: char, from: nat): (r: Option<nat>)
    requires from <= |s|
    ensures r.Some? ==> from <= r.value < |s| && s[r.value] == c
    ensures r.Some? ==> forall k :: from <= k < r.value ==> s[k] != c
    ensures r.None? ==> forall k :: from <= k < |s| ==> s[k] != c
    decreases |s| - from
  {
    if from == |s| then None
    else if s[from] == c then Some(from)
    else FindChar(s, c, from + 1)
  }

  predicate OccursAt(s: string, sep: string, k: nat) {
    k + |sep| <= |s| && s[k..k + |sep|] == sep
  }

  /** The first occurrence of `sep` in `s` at or after `from`. */
  function FindSub(s: string, sep: string, from: nat): (r: Option<nat>)
    requires from <= |s|
    ensures r.Some? ==> from <= r.value && OccursAt(s, sep, r.value)
    ensures r.Some? ==> forall k :: from <= k < r.value ==> !OccursAt(s, sep, k)
    ensures r.None? ==> forall k :: from <= k <= |s| ==> !OccursAt(s, sep, k)
    decreases |s| - from
  {
    if OccursAt(s, sep, from) then Some(from)
    else if from == |s| then None
    else FindSub(s, sep, from + 1)
  }

  /** `sep.join(parts)`. */
  function Join(parts: seq<string>, sep: string): string
    decreases |parts|
  {
    if |parts| == 0 then ""
    else if |parts| == 1 then parts[0]
    else parts[0] + sep + Join(parts[1..], sep)
  }

  /**
   * No occurrence of `sep` starts inside `part`, not even one that runs on
   * into a `sep` written after it: a piece of a left-to-right split.
   */
  predicate SepFree(part: string, sep: string) {
    forall k :: 0 <= k < |part| ==> !OccursAt(part + sep, sep, k)
  }

  /**
   * What a left-to-right split of `s` at `sep` looks like: the pieces,
   * joined with `sep`, give `s` back; no piece before the last runs into
   * the separator after it; the last piece holds no `sep`.
   */
  predicate SplitShape(s: string, sep: string, parts: seq<string>) {
    && |parts| > 0
    && Join(parts, sep) == s
    && (forall i :: 0 <= i < |parts| - 1 ==> SepFree(parts[i], sep))
    && FindSub(parts[|parts| - 1], sep, 0).None?
  }

  /**
   * `s.split(sep)` for a non-empty separator: cuts at every occurrence of
   * `sep`, scanning left to right. `SplitOnUnique` shows that the shape
   * stated here determines the pieces.
   */
  function SplitOn(s: string, sep: string): (r: seq<string>)
    requires |sep| > 0
    ensures SplitShape(s, sep, r)
    ensures forall i, k :: 0 <= i < |r| ==> !OccursAt(r[i], sep, k)
    decreases |s|
  {
    match FindSub(s, sep, 0)
    case None => [s]
    case Some(k) =>
      var rest := SplitOn(s[k + |sep|..], sep);
      NoEarlierOccurrence(s, sep, k);
      FirstPieceSepFree(s, sep, k);
      assert s == s[..k] + sep + s[k + |sep|..];
      var r := [s[..k]] + rest;
      assert r[1..] == rest;
      assert forall i :: 1 <= i < |r| ==> r[i] == rest[i - 1];
      r
  }

  lemma NoEarlierOccurrence(s: string, sep: string, k: nat)
    requires k <= |s| && |sep| > 0
    requires forall j :: 0 <= j < k ==> !OccursAt(s, sep, j)
    ensures forall j: nat :: !OccursAt(s[..k], sep, j)
  {
    forall j: nat | OccursAt(s[..k], sep, j)
      ensures false
    {
      assert s[..k][j..j + |sep|] == s[j..j + |sep|];
      assert OccursAt(s, sep, j);
    }
  }

  /** The text before the first occurrence of `sep` is free of it, separator included. */
  lemma FirstPieceSepFree(s: string, sep: string, k: nat)
    requires k + |sep| <= |s| && OccursAt(s, sep, k)
    requires forall j :: 0 <= j < k ==> !OccursAt(s, sep, j)
    ensures SepFree(s[..k], sep)
  {
    assert s[..k] + sep == s[..k + |sep|];
    forall j | 0 <= j < k && OccursAt(s[..k] + sep, sep, j)
      ensures false
    {
      assert (s[..k] + sep)[j..j + |sep|] == s[j..j + |sep|];
      assert OccursAt(s, sep, j);
    }
  }

  /** A part free of `sep` holds no `sep` of its own. */
  lemma SepFreeHasNone(part: string, sep: string)
    requires |sep| > 0 && SepFree(part, sep)
    ensures forall k: nat :: !OccursAt(part, sep, k)
  {
    forall k: nat | OccursAt(part, sep, k)
      ensures false
    {
      assert (part + sep)[k..k + |sep|] == part[k..k + |sep|];
      assert OccursAt(part + sep, sep, k);
    }
  }

  /** The first occurrence of `sep` in `p + sep + t`, for `p` free of `sep`, is right after `p`. */
  lemma FindSubAfterPiece(p: string, sep: string, t: string)
    requires |sep| > 0 && SepFree(p, sep)
    ensures FindSub(p + sep + t, sep, 0) == Some(|p|)
  {
    var s := p + sep + t;
    assert s[|p|..|p| + |sep|] == sep;
    assert OccursAt(s, sep, |p|);
    forall j | 0 <= j < |p| && OccursAt(s, sep, j)
      ensures false
    {
      assert s[j..j + |sep|] == (p + sep)[j..j + |sep|];
      assert OccursAt(p + sep, sep, j);
    }
  }

  /** Pieces free of `sep`, joined with `sep`, form a split of that shape. */
  lemma JoinSplitShape(parts: seq<string>, sep: string)
    requires |parts| > 0 && |sep| > 0
    requires forall i :: 0 <= i < |parts| ==> SepFree(parts[i], sep)
    ensures SplitShape(Join(parts, sep), sep, parts)
  {
    var last := parts[|parts| - 1];
    SepFreeHasNone(last, sep);
    if FindSub(last, sep, 0).Some? {
      assert false;
    }
  }

  /** A split of that shape is the split: `SplitOn` is the only one. */
  lemma {:induction false} SplitOnUnique(s: string, sep: string, parts: seq<string>)
    requires |sep| > 0 && SplitShape(s, sep, parts)
    ensures SplitOn(s, sep) == parts
    decreases |parts|
  {
    if |parts| == 1 {
      assert s == parts[0];
    } else {
      var p := parts[0];
      var t := Join(parts[1..], sep);
      SplitShapeTail(s, sep, parts);
      FindSubAfterPiece(p, sep, t);
      assert s[|p| + |sep|..] == t;
      assert s[..|p|] == p;
      SplitOnUnique(t, sep, parts[1..]);
      assert parts == [p] + parts[1..];
    }
  }

  /** The pieces after the first of a split of that shape are a split of that shape of the rest. */
  lemma SplitShapeTail(s: string, sep: string, parts: seq<string>)
    requires |parts| > 1 && SplitShape(s, sep, parts)
    ensures s == parts[0] + sep + Join(parts[1..], sep)
    ensures SplitShape(Join(parts[1..], sep), sep, parts[1..])
  {
    assert forall i :: 0 <= i < |parts[1..]| - 1 ==> parts[1..][i] == parts[i + 1];
  }

  predicate IsToken(w: string) {
    |w| > 0 && forall k :: 0 <= k < |w| ==> !IsSpace(w[k])
  }

  /**
   * `s.split()`: the maximal runs of non-whitespace, in order; none at all
   * exactly when the text is all whitespace. `WordsOfJoin` shows that
   * splitting tokens joined by single spaces gives the tokens back.
   */
  function Words(s: string): (r: seq<string>)
    ensures forall i :: 0 <= i < |r| ==> IsToken(r[i])
    ensures r == [] <==> forall k :: 0 <= k < |s| ==> IsSpace(s[k])
    decreases |s|
  {
    var a := SpaceEnd(s, 0);
    if a == |s| then []
    else
      var b := NonSpaceEnd(s, a);
      [s[a..b]] + Words(s[b..])
  }

  /** A run of whitespace from `i` that stops at `e` is the one `SpaceEnd` finds. */
  lemma SpaceEndIs(s: string, i: nat, e: nat)
    requires i <= e <= |s|
    requires forall k :: i <= k < e ==> IsSpace(s[k])
    requires e < |s| ==> !IsSpace(s[e])
    ensures SpaceEnd(s, i) == e
  {
  }

  /** A run of non-whitespace from `i` that stops at `e` is the one `NonSpaceEnd` finds. */
  lemma NonSpaceEndIs(s: string, i: nat, e: nat)
    requires i <= e <= |s|
    requires forall k :: i <= k < e ==> !IsSpace(s[k])
    requires e < |s| ==> IsSpace(s[e])
    ensures NonSpaceEnd(s, i) == e
  {
  }

  /** A run of word characters from `i` that stops at `e` is the one `WordEnd` finds. */
  lemma WordEndIs(s: string, i: nat, e: nat)
    requires i <= e <= |s|
    requires forall k :: i <= k < e ==> IsWordChar(s[k])
    requires e < |s| ==> !IsWordChar(s[e])
    ensures WordEnd(s, i) == e
  {
  }

  /** A single space in front of text that starts with a token changes nothing. */
  lemma WordsAfterSpace(t: string)
    requires |t| > 0 && !IsSpace(t[0])
    ensures Words(" " + t) == Words(t)
  {
    var s := " " + t;
    SpaceEndIs(s, 0, 1);
    SpaceEndIs(t, 0, 0);
    var b := NonSpaceEnd(t, 0);
    forall k | 1 <= k < b + 1
      ensures !IsSpace(s[k])
    {
      assert s[k] == t[k - 1];
    }
    NonSpaceEndIs(s, 1, b + 1);
    assert s[1..b + 1] == t[0..b];
    assert s[b + 1..] == t[b..];
    assert Words(t) == [t[0..b]] + Words(t[b..]);
    assert Words(s) == [s[1..b + 1]] + Words(s[b + 1..]);
  }

  /** Tokens joined by single spaces split back into the same tokens. */
  lemma {:induction false} WordsOfJoin(parts: seq<string>)
    requires forall i :: 0 <= i < |parts| ==> IsToken(parts[i])
    ensures Words(Join(parts, " ")) == parts
    decreases |parts|
  {
    if |parts| == 1 {
      var p := parts[0];
      SpaceEndIs(p, 0, 0);
      NonSpaceEndIs(p, 0, |p|);
      assert p[0..|p|] == p && p[|p|..] == "";
      assert Words("") == [];
    } else if |parts| > 1 {
      var p := parts[0];
      var j := Join(parts[1..], " ");
      var s := Join(parts, " ");
      assert s == p + (" " + j);
      JoinTokensEnds(parts[1..], " ");
      SpaceEndIs(s, 0, 0);
      NonSpaceEndIs(s, 0, |p|);
      assert s[0..|p|] == p;
      assert s[|p|..] == " " + j;
      WordsAfterSpace(j);
      WordsOfJoin(parts[1..]);
      assert parts == [p] + parts[1..];
    }
  }

  /** Joining non-empty tokens gives text that starts and ends with a non-space. */
  lemma {:induction false} JoinTokensEnds(parts: seq<string>, sep: string)
    requires |parts| > 0
    requires forall i :: 0 <= i < |parts| ==> IsToken(parts[i])
    ensures |Join(parts, sep)| > 0
    ensures !IsSpace(Join(parts, sep)[0])
    ensures !IsSpace(Join(parts, sep)[|Join(parts, sep)| - 1])
  {
    if |parts| > 1 {
      JoinTokensEnds(parts[1..], sep);
      var tail := Join(parts[1..], sep);
      assert Join(parts, sep) == parts[0] + sep + tail;
      assert Join(parts, sep)[0] == parts[0][0];
    }
  }

  // ---------------------------------------------------------------------
  // Padding

  function Spaces(n: nat): (r: string)
    ensures |r| == n
    ensures forall k :: 0 <= k < n ==> r[k] == ' '
  {
    seq(n, k => ' ')
  }

  function Max(a: int, b: int): int {
    if a >= b then a else b
  }

  /** `s.ljust(width)`: pads with spaces on the right up to `width`, never truncates. */
  function LJust(s: string, width: nat): (r: string)
    ensures |r| == Max(|s|, width)
    ensures r[..|s|] == s
    ensures forall k :: |s| <= k < |r| ==> r[k] == ' '
  {
    if |s| >= width then s else s + Spaces(width - |s|)
  }

  // ---------------------------------------------------------------------
  // Decimal integers

  predicate AllDigits(s: string) {
    forall k :: 0 <= k < |s| ==> IsDigit(s[k])
  }

  function DigitChar(d: nat): (c: char)
    requires d < 10
    ensures IsDigit(c)
  {
    ('0' as int + d) as char
  }

  function DigitValue(c: char): nat
    requires IsDigit(c)
  {
    c as int - '0' as int
  }

  /** The decimal digits of `n`, without leading zeros. */
  function NatToDigits(n: nat): (r: string)
    ensures |r| > 0 && AllDigits(r)
    decreases n
  {
    if n < 10 then [DigitChar(n)] else NatToDigits(n / 10) + [DigitChar(n % 10)]
  }

  /** The value of a string of decimal digits. */
  function DigitsValue(s: string): nat
    requires AllDigits(s)
    decreases |s|
  {
    if |s| == 0 then 0 else DigitsValue(s[..|s| - 1]) * 10 + DigitValue(s[|s| - 1])
  }

  lemma {:induction false} DigitsValueOfNat(n: nat)
    ensures DigitsValue(NatToDigits(n)) == n
  {
    if n >= 10 {
      DigitsValueOfNat(n / 10);
      var s := NatToDigits(n);
      assert s[..|s| - 1] == NatToDigits(n / 10);
    }
  }

  /** `str(i)` for an integer. */
  function IntToString(i: int): string {
    if i < 0 then "-" + NatToDigits(-i) else NatToDigits(i)
  }

  /**
   * `int(s)` in base 10: surrounding whitespace, an optional sign, then one
   * or more decimal digits. `None` is the `ValueError` Python raises.
   */
  function ParseInt(s: string): Option<int> {
    var t := Strip(s);
    if |t| > 0 && (t[0] == '-' || t[0] == '+') then
      if |t| > 1 && AllDigits(t[1..]) then
        Some(if t[0] == '-' then -(DigitsValue(t[1..]) as int) else DigitsValue(t[1..]) as int)
      else None
    else if |t| > 0 && AllDigits(t) then Some(DigitsValue(t))
    else None
  }

  /** `int(str(i)) == i`: the text written for a year or volume reads back as the same number. */
  lemma ParseIntOfIntToString(i: int)
    ensures ParseInt(IntToString(i)) == Some(i)
  {
    var s := IntToString(i);
    var n: nat := if i < 0 then -i else i;
    var ds := NatToDigits(n);
    DigitsValueOfNat(n);
    assert !IsSpace(s[0]) && !IsSpace(s[|s| - 1]);
    StripUnchanged(s);
    if i < 0 {
      assert s[1..] == ds;
    }
  }
}
