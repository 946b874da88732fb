/**
 * The scanning layer of the single-record BibTeX parser in
 * src/citeable/_parser.py, stated as functions: the two regular
 * expressions (`@(\w+)\s*\{` and the multi-line `^\s*(\w+)\s*=\s*`) as
 * hand-written matchers, the brace-depth scan, the split of a record into
 * type, cite key and fields text, value decoding, and the field map.
 * The methods of module Parser perform the same steps with loops and are
 * proved equal to these functions.
 */
module BibScan {
  import opened Wrappers
  import opened Text

  // =====================================================================
  // Entry start markers: `@(\w+)\s*\{`

  /** A match of the entry start pattern: where it starts, the type token, and the index just after `{`. */
  datatype EntryStart = EntryStart(start: nat, entryType: string, bodyStart: nat)

  /**
   * The match of `@(\w+)\s*\{` at index `i`, if there is one. The pattern
   * cannot backtrack usefully (word characters, whitespace and `{` are
   * disjoint), so the greedy runs decide it.
   */
  function EntryStartAt(s: string, i: nat): (r: Option<EntryStart>)
    requires i <= |s|
    ensures r.Some? ==> r.value.start == i
    ensures r.Some? ==> i + 1 < r.value.bodyStart <= |s| && s[i] == '@' && s[r.value.bodyStart - 1] == '{'
    ensures r.Some? ==> 0 < |r.value.entryType| && i + 1 + |r.value.entryType| < r.value.bodyStart &&
                        r.value.entryType == s[i + 1..i + 1 + |r.value.entryType|]
    ensures r.Some? ==> forall k :: 0 <= k < |r.value.entryType| ==> IsWordChar(r.value.entryType[k])
    ensures r.Some? ==> forall k :: i + 1 + |r.value.entryType| <= k < r.value.bodyStart - 1 ==> IsSpace(s[k])
    ensures (i < |s| && s[i] == '@' && WordEnd(s, i + 1) > i + 1 && SpaceEnd(s, WordEnd(s, i + 1)) < |s| &&
             s[SpaceEnd(s, WordEnd(s, i + 1))] == '{') ==> r.Some?
  {
    if i < |s| && s[i] == '@' then
      var w := WordEnd(s, i + 1);
      var b := SpaceEnd(s, w);
      if w > i + 1 && b < |s| && s[b] == '{' then Some(EntryStart(i, s[i + 1..w], b + 1)) else None
    else None
  }

  /** No match starts inside another: the text of a match holds no `@` after its first character. */
  lemma EntryStartsDisjoint(s: string, i: nat, j: nat)
    requires i < j <= |s|
    requires EntryStartAt(s, i).Some? && j < EntryStartAt(s, i).value.bodyStart
    ensures EntryStartAt(s, j).None?
  {
    var m := EntryStartAt(s, i).value;
    if j < i + 1 + |m.entryType| {
      assert s[j] == m.entryType[j - i - 1];
    }
  }

  /**
   * `finditer`: the non-overlapping matches at or after `from`, left to
   * right, each search resuming where the previous match ended.
   */
  function EntryStarts(s: string, from: nat): (r: seq<EntryStart>)
    requires from <= |s|
    ensures forall k :: 0 <= k < |r| ==> from <= r[k].start < r[k].bodyStart <= |s|
    ensures forall k :: 0 <= k < |r| - 1 ==> r[k].bodyStart <= r[k + 1].start
    decreases |s| - from
  {
    if from == |s| then []
    else
      match EntryStartAt(s, from)
      case Some(m) => [m] + EntryStarts(s, m.bodyStart)
      case None => EntryStarts(s, from + 1)
  }

  /** Every element `finditer` yields is the match of the pattern at its start. */
  lemma {:induction false} EntryStartsAreMatches(s: string, from: nat, k: nat)
    requires from <= |s| && k < |EntryStarts(s, from)|
    ensures EntryStartAt(s, EntryStarts(s, from)[k].start) == Some(EntryStarts(s, from)[k])
    decreases |s| - from
  {
    if EntryStartAt(s, from).Some? {
      var m := EntryStartAt(s, from).value;
      var rest := EntryStarts(s, m.bodyStart);
      assert EntryStarts(s, from) == [m] + rest;
      if k > 0 {
        EntryStartsAreMatches(s, m.bodyStart, k - 1);
      }
    } else {
      assert EntryStarts(s, from) == EntryStarts(s, from + 1);
      EntryStartsAreMatches(s, from + 1, k);
    }
  }

  /** There is no match at all exactly when the pattern matches at no index. */
  lemma {:induction false} NoEntryStartIff(s: string, from: nat)
    requires from <= |s|
    ensures EntryStarts(s, from) == [] <==> forall i :: from <= i < |s| ==> EntryStartAt(s, i).None?
    decreases |s| - from
  {
    if from < |s| && EntryStartAt(s, from).None? {
      NoEntryStartIff(s, from + 1);
    }
  }

  /** `finditer` misses no match: every index where the pattern matches starts one of the matches. */
  lemma {:induction false} EntryStartsComplete(s: string, from: nat, i: nat)
    requires from <= i < |s| && EntryStartAt(s, i).Some?
    ensures exists k :: 0 <= k < |EntryStarts(s, from)| && EntryStarts(s, from)[k].start == i
    decreases |s| - from
  {
    if EntryStartAt(s, from).Some? {
      var m := EntryStartAt(s, from).value;
      var rest := EntryStarts(s, m.bodyStart);
      assert EntryStarts(s, from) == [m] + rest;
      if i == from {
        assert EntryStarts(s, from)[0].start == i;
      } else {
        if i < m.bodyStart {
          EntryStartsDisjoint(s, from, i);
        }
        EntryStartsComplete(s, m.bodyStart, i);
        var k :| 0 <= k < |rest| && rest[k].start == i;
        assert EntryStarts(s, from)[k + 1] == rest[k];
      }
    } else {
      assert EntryStarts(s, from) == EntryStarts(s, from + 1);
      EntryStartsComplete(s, from + 1, i);
    }
  }

  /** Two places where the pattern matches give at least two matches. */
  lemma TwoEntryStarts(s: string, i: nat, j: nat)
    requires i < |s| && j < |s| && i != j
    requires EntryStartAt(s, i).Some? && EntryStartAt(s, j).Some?
    ensures |EntryStarts(s, 0)| >= 2
  {
    var r := EntryStarts(s, 0);
    EntryStartsComplete(s, 0, i);
    EntryStartsComplete(s, 0, j);
    var ki :| 0 <= ki < |r| && r[ki].start == i;
    var kj :| 0 <= kj < |r| && r[kj].start == j;
    assert ki != kj;
  }

  // =====================================================================
  // Brace depth

  function Delta(c: char): int {
    if c == '{' then 1 else if c == '}' then -1 else 0
  }

  /** Opening braces minus closing braces. */
  function Net(t: string): int
    decreases |t|
  {
    if |t| == 0 then 0 else Delta(t[0]) + Net(t[1..])
  }

  lemma {:induction false} NetSnoc(t: string, c: char)
    ensures Net(t + [c]) == Net(t) + Delta(c)
    decreases |t|
  {
    if |t| > 0 {
      assert (t + [c])[1..] == t[1..] + [c];
      NetSnoc(t[1..], c);
    }
  }

  /** As many `}` as `{`, and no prefix closes more than it opened. */
  predicate Balanced(t: string) {
    Net(t) == 0 && forall k :: 0 <= k <= |t| ==> Net(t[..k]) >= 0
  }

  /**
   * The depth counter loop: from `pos` at `depth`, step over one character
   * at a time while text remains and the depth is positive, adding one
   * for `{` and taking one for `}`. The result is the stopping index and
   * the depth there.
   */
  function Scan(s: string, pos: nat, depth: int): (r: (nat, int))
    requires pos <= |s|
    ensures pos <= r.0 <= |s|
    ensures r.0 < |s| ==> r.1 <= 0
    ensures depth > 0 && r.1 <= 0 ==> r.1 == 0 && r.0 > pos && s[r.0 - 1] == '}'
    ensures depth <= 0 ==> r == (pos, depth)
    decreases |s| - pos
  {
    if pos < |s| && depth > 0 then Scan(s, pos + 1, depth + Delta(s[pos])) else (pos, depth)
  }

  /**
   * What the scan reads: the depth where it stops is the starting depth
   * plus the braces it stepped over, and before that the depth stays
   * positive.
   */
  lemma {:induction false} ScanDepth(s: string, pos: nat, depth: int)
    requires pos <= |s| && depth > 0
    ensures Scan(s, pos, depth).1 == depth + Net(s[pos..Scan(s, pos, depth).0])
    ensures forall k :: pos <= k < Scan(s, pos, depth).0 ==> depth + Net(s[pos..k]) > 0
    decreases |s| - pos
  {
    var q := Scan(s, pos, depth).0;
    assert Net(s[pos..pos]) == 0;
    if pos < |s| {
      var d := depth + Delta(s[pos]);
      forall k | pos < k <= |s|
        ensures Net(s[pos..k]) == Delta(s[pos]) + Net(s[pos + 1..k])
      {
        assert s[pos..k][1..] == s[pos + 1..k];
      }
      if d > 0 {
        ScanDepth(s, pos + 1, d);
      } else {
        assert Scan(s, pos + 1, d) == (pos + 1, d);
        assert Net(s[pos + 1..pos + 1]) == 0;
      }
    }
  }

  /**
   * The record body `bibtex[start:pos - 1]`: the scan starts at depth 1
   * just after the opening brace; the slice is empty when the scan did not
   * move.
   */
  function Body(s: string, start: nat): string
    requires start <= |s|
  {
    var q := Scan(s, start, 1).0;
    if q > start then s[start..q - 1] else ""
  }

  /**
   * When the braces balance, the body is the text strictly between the
   * opening brace and the `}` that brings the depth back to zero, and is
   * itself balanced; otherwise the scan runs to the end of the text and
   * the body is the rest of the text minus its final character.
   */
  lemma BodyExtraction(s: string, start: nat)
    requires start <= |s|
    ensures Scan(s, start, 1).1 == 0 ==>
              var q := Scan(s, start, 1).0;
              q > start && s[q - 1] == '}' && Body(s, start) == s[start..q - 1] && Balanced(Body(s, start))
    ensures Scan(s, start, 1).1 != 0 ==>
              Scan(s, start, 1).0 == |s| && Body(s, start) == (if |s| > start then s[start..|s| - 1] else "")
  {
    var q := Scan(s, start, 1).0;
    ScanDepth(s, start, 1);
    if Scan(s, start, 1).1 == 0 {
      var body := s[start..q - 1];
      assert s[start..q] == body + ['}'];
      NetSnoc(body, '}');
      forall k | 0 <= k <= |body|
        ensures Net(body[..k]) >= 0
      {
        assert body[..k] == s[start..start + k];
      }
    }
  }

  // =====================================================================
  // Records

  /** One record: its type token as written, its cite key, and the fields text. */
  datatype RawRecord = RawRecord(entryType: string, citeKey: string, fieldsBody: string)

  /**
   * The split at the first comma of the body: the trimmed text before it
   * is the cite key and the text after it the fields; with no comma the
   * whole trimmed body is the key and there are no fields.
   */
  function SplitKey(body: string): (r: (string, string))
    ensures (forall k :: 0 <= k < |body| ==> body[k] != ',') ==> r == (Strip(body), "")
    ensures forall c :: 0 <= c < |body| && body[c] == ',' && (forall k :: 0 <= k < c ==> body[k] != ',') ==>
              r == (Strip(body[..c]), body[c + 1..])
  {
    match FindChar(body, ',', 0)
    case None => (Strip(body), "")
    case Some(c) => (Strip(body[..c]), body[c + 1..])
  }

  function RecordAt(s: string, m: EntryStart): RawRecord
    requires m.bodyStart <= |s|
  {
    var (citeKey, fieldsBody) := SplitKey(Body(s, m.bodyStart));
    RawRecord(m.entryType, citeKey, fieldsBody)
  }

  /** One record per start marker of `ms`, in order. */
  function RecordsOf(s: string, ms: seq<EntryStart>): (r: seq<RawRecord>)
    requires forall k :: 0 <= k < |ms| ==> ms[k].bodyStart <= |s|
    ensures |r| == |ms|
  {
    if ms == [] then [] else RecordsOf(s, ms[..|ms| - 1]) + [RecordAt(s, ms[|ms| - 1])]
  }

  /** `_extract_entries`: one record per entry start marker, in order. */
  function Records(s: string): (r: seq<RawRecord>)
    ensures |r| == |EntryStarts(s, 0)|
  {
    RecordsOf(s, EntryStarts(s, 0))
  }

  /** The `i`-th record is read from the `i`-th start marker. */
  lemma {:induction false} RecordOfStart(s: string, ms: seq<EntryStart>, i: nat)
    requires forall k :: 0 <= k < |ms| ==> ms[k].bodyStart <= |s|
    requires i < |ms|
    ensures RecordsOf(s, ms)[i] == RecordAt(s, ms[i])
    decreases |ms|
  {
    if i < |ms| - 1 {
      RecordOfStart(s, ms[..|ms| - 1], i);
    }
  }

  // =====================================================================
  // Field starts: `^\s*(\w+)\s*=\s*` with MULTILINE

  /** A field start match: where it starts, the field name, and where the value starts. */
  datatype FieldStart = FieldStart(start: nat, name: string, valueStart: nat)

  /**
   * The match of the field start pattern at index `i`: `i` begins a line,
   * then whitespace (newlines included), a run of word characters,
   * whitespace, `=` and whitespace. As for the entry start pattern, the
   * greedy runs decide the match.
   */
  function FieldStartAt(s: string, i: nat): (r: Option<FieldStart>)
    requires i <= |s|
    ensures r.Some? ==> r.value.start == i && i < r.value.valueStart <= |s|
    ensures r.Some? ==> i == 0 || s[i - 1] == '\n'
    ensures r.Some? ==> |r.value.name| > 0 && forall k :: 0 <= k < |r.value.name| ==> IsWordChar(r.value.name[k])
  {
    if i == 0 || s[i - 1] == '\n' then
      var a := SpaceEnd(s, i);
      var w := WordEnd(s, a);
      var b := SpaceEnd(s, w);
      if w > a && b < |s| && s[b] == '=' then Some(FieldStart(i, s[a..w], SpaceEnd(s, b + 1))) else None
    else None
  }

  /**
   * What a field start match is: after the line start, the whitespace run,
   * the name, the whitespace run, `=` and the whitespace run that ends
   * where the value starts; and wherever that pattern is present at a line
   * start, there is a match.
   */
  lemma FieldStartPattern(s: string, i: nat)
    requires i <= |s|
    ensures FieldStartAt(s, i).Some? ==>
              var m := FieldStartAt(s, i).value;
              var a := SpaceEnd(s, i);
              var b := SpaceEnd(s, a + |m.name|);
              && a + |m.name| <= |s| && m.name == s[a..a + |m.name|]
              && b < |s| && s[b] == '=' && m.valueStart == SpaceEnd(s, b + 1)
    ensures ((i == 0 || s[i - 1] == '\n') && WordEnd(s, SpaceEnd(s, i)) > SpaceEnd(s, i) &&
             SpaceEnd(s, WordEnd(s, SpaceEnd(s, i))) < |s| && s[SpaceEnd(s, WordEnd(s, SpaceEnd(s, i)))] == '=')
            ==> FieldStartAt(s, i).Some?
  {
  }

  /** Matches in increasing order, none overlapping the next, within `from..n`. */
  predicate Ordered(ms: seq<FieldStart>, from: nat, n: nat) {
    && (forall k :: 0 <= k < |ms| ==> from <= ms[k].start < ms[k].valueStart <= n)
    && (forall k :: 0 <= k < |ms| - 1 ==> ms[k].valueStart <= ms[k + 1].start)
  }

  /** `finditer` for the field start pattern from `from`: each search resumes where the previous match ended. */
  function FieldStarts(s: string, from: nat): (r: seq<FieldStart>)
    requires from <= |s|
    ensures Ordered(r, from, |s|)
    ensures forall k :: 0 <= k < |r| ==> |r[k].name| > 0
    decreases |s| - from
  {
    if from == |s| then []
    else
      match FieldStartAt(s, from)
      case Some(m) => [m] + FieldStarts(s, m.valueStart)
      case None => FieldStarts(s, from + 1)
  }

  /** One step of `finditer`: a match at `from` is yielded and the search resumes after it. */
  lemma FieldStartsStep(s: string, from: nat)
    requires from < |s|
    ensures FieldStartAt(s, from).Some? ==>
              FieldStarts(s, from) == [FieldStartAt(s, from).value] + FieldStarts(s, FieldStartAt(s, from).value.valueStart)
    ensures FieldStartAt(s, from).None? ==> FieldStarts(s, from) == FieldStarts(s, from + 1)
  {
  }

  /** Every element `finditer` yields is the match of the pattern at its start. */
  lemma {:induction false} FieldStartsAreMatches(s: string, from: nat, m: FieldStart)
    requires from <= |s| && m in FieldStarts(s, from)
    ensures m.start <= |s| && FieldStartAt(s, m.start) == Some(m)
    decreases |s| - from
  {
    FieldStartsStep(s, from);
    if FieldStartAt(s, from).Some? {
      var h := FieldStartAt(s, from).value;
      if m != h {
        FieldStartsAreMatches(s, h.valueStart, m);
      }
    } else {
      FieldStartsAreMatches(s, from + 1, m);
    }
  }

  /**
   * `finditer` misses no match except inside another: every index where the
   * pattern matches starts one of the matches or lies within one (a match's
   * leading or trailing whitespace can swallow the next line's start).
   */
  lemma {:induction false} FieldStartsComplete(s: string, from: nat, i: nat)
    requires from <= i < |s| && FieldStartAt(s, i).Some?
    ensures exists m :: m in FieldStarts(s, from) && m.start <= i < m.valueStart
    decreases |s| - from
  {
    FieldStartsStep(s, from);
    if FieldStartAt(s, from).Some? {
      var h := FieldStartAt(s, from).value;
      if i < h.valueStart {
        assert h in FieldStarts(s, from);
      } else {
        FieldStartsComplete(s, h.valueStart, i);
        var m :| m in FieldStarts(s, h.valueStart) && m.start <= i < m.valueStart;
        assert m in FieldStarts(s, from);
      }
    } else {
      FieldStartsComplete(s, from + 1, i);
    }
  }

  // =====================================================================
  // Values

  /**
   * `_extract_value`, with `None` for the error a missing closing quote
   * raises: the text is trimmed; a braced value is the text inside the
   * first outer brace pair (the trimmed text itself when it never closes);
   * a quoted value runs to the next `"`; a bare value loses its trailing
   * commas and then its surrounding whitespace.
   */
  function DecodeValue(raw: string): (r: Option<string>)
  {
    var t := Strip(raw);
    if |t| > 0 && t[0] == '{' then
      var (q, depth) := Scan(t, 1, 1);
      if depth == 0 then Some(t[1..q - 1]) else Some(t)
    else if |t| > 0 && t[0] == '"' then
      match FindChar(t, '"', 1)
      case None => None
      case Some(e) => Some(t[1..e])
    else Some(Strip(RStripChar(t, ',')))
  }

  /** A braced value is balanced when its braces close, and the trimmed text when they do not. */
  lemma DecodeBraced(raw: string)
    requires |Strip(raw)| > 0 && Strip(raw)[0] == '{'
    ensures DecodeValue(raw).Some?
    ensures Scan(Strip(raw), 1, 1).1 == 0 ==>
              && Balanced(DecodeValue(raw).value)
              && Strip(raw) == "{" + DecodeValue(raw).value + "}" + Strip(raw)[Scan(Strip(raw), 1, 1).0..]
    ensures Scan(Strip(raw), 1, 1).1 != 0 ==> DecodeValue(raw).value == Strip(raw)
  {
    var t := Strip(raw);
    BodyExtraction(t, 1);
    if Scan(t, 1, 1).1 == 0 {
      var q := Scan(t, 1, 1).0;
      assert t == t[..1] + t[1..q - 1] + t[q - 1..q] + t[q..];
    }
  }

  /** A quoted value holds no quote; it fails exactly when the quote never closes. */
  lemma DecodeQuoted(raw: string)
    requires |Strip(raw)| > 0 && Strip(raw)[0] == '"'
    ensures DecodeValue(raw).None? <==> forall k :: 1 <= k < |Strip(raw)| ==> Strip(raw)[k] != '"'
    ensures DecodeValue(raw).Some? ==>
              (forall k :: 0 <= k < |DecodeValue(raw).value| ==> DecodeValue(raw).value[k] != '"') &&
              Strip(raw)[..|DecodeValue(raw).value| + 2] == "\"" + DecodeValue(raw).value + "\""
  {
    var t := Strip(raw);
    match FindChar(t, '"', 1)
    case None =>
    case Some(e) =>
      assert t[..e + 1] == t[..1] + t[1..e] + t[e..e + 1];
  }

  /**
   * A bare value is the trimmed text cut before a tail of commas and
   * whitespace, and has no surrounding whitespace of its own.
   */
  lemma DecodeBare(raw: string)
    requires |Strip(raw)| == 0 || (Strip(raw)[0] != '{' && Strip(raw)[0] != '"')
    ensures DecodeValue(raw).Some?
    ensures var v := DecodeValue(raw).value; |v| > 0 ==> !IsSpace(v[0]) && !IsSpace(v[|v| - 1])
    ensures var v, t := DecodeValue(raw).value, Strip(raw);
            && |v| <= |t| && v == t[..|v|]
            && forall k :: |v| <= k < |t| ==> t[k] == ',' || IsSpace(t[k])
  {
    var t := Strip(raw);
    var u := RStripChar(t, ',');
    var v := Strip(u);
    assert DecodeValue(raw) == Some(v);
    if |u| > 0 {
      assert u[0] == t[0];
      assert SpaceEnd(u, 0) == 0;
    } else {
      assert v == "";
    }
    assert v == u[..|v|];
    forall k | |v| <= k < |t|
      ensures t[k] == ',' || IsSpace(t[k])
    {
      if k < |u| {
        assert t[k] == u[k];
      }
    }
  }

  // =====================================================================
  // The field map

  /** The text a field's value is decoded from: up to the next field start, or the end. */
  function ValueSpan(body: string, ms: seq<FieldStart>, i: nat): string
    requires Ordered(ms, 0, |body|) && i < |ms|
  {
    body[ms[i].valueStart..if i + 1 < |ms| then ms[i + 1].start else |body|]
  }

  /** The decoded value of each match, `None` where decoding fails. */
  function FieldValues(body: string, ms: seq<FieldStart>): (r: seq<Option<string>>)
    requires Ordered(ms, 0, |body|)
    ensures |r| == |ms|
  {
    seq(|ms|, i requires 0 <= i < |ms| => DecodeValue(ValueSpan(body, ms, i)))
  }

  /**
   * The map after the first `n` fields: names lower-cased, a later field
   * replacing an earlier one; `None` once a value fails to decode.
   */
  function FieldsUpTo(ms: seq<FieldStart>, values: seq<Option<string>>, n: nat): Option<map<string, string>>
    requires |values| == |ms| && n <= |ms|
  {
    if n == 0 then Some(map[])
    else
      var prev :- FieldsUpTo(ms, values, n - 1);
      var value :- values[n - 1];
      Some(prev[Lower(ms[n - 1].name) := value])
  }

  /** `_parse_fields`. */
  function Fields(body: string): Option<map<string, string>> {
    var ms := FieldStarts(body, 0);
    FieldsUpTo(ms, FieldValues(body, ms), |ms|)
  }

  /** Once a value fails to decode, the whole map fails. */
  lemma {:induction false} FieldsFailStays(ms: seq<FieldStart>, values: seq<Option<string>>, i: nat, n: nat)
    requires |values| == |ms| && i <= n <= |ms|
    requires FieldsUpTo(ms, values, i).None?
    ensures FieldsUpTo(ms, values, n).None?
    decreases n - i
  {
    if i < n {
      FieldsFailStays(ms, values, i + 1, n);
    }
  }

  /** The map fails exactly when some value fails to decode. */
  lemma {:induction false} FieldsFailIff(ms: seq<FieldStart>, values: seq<Option<string>>, n: nat)
    requires |values| == |ms| && n <= |ms|
    ensures FieldsUpTo(ms, values, n).None? <==> exists i :: 0 <= i < n && values[i].None?
    decreases n
  {
    if n > 0 {
      FieldsFailIff(ms, values, n - 1);
      if values[n - 1].None? {
        assert 0 <= n - 1 < n && values[n - 1].None?;
      }
    }
  }

  /** The lower-cased names of the first `n` matches. */
  function Names(ms: seq<FieldStart>, n: nat): set<string>
    requires n <= |ms|
  {
    if n == 0 then {} else Names(ms, n - 1) + {Lower(ms[n - 1].name)}
  }

  lemma {:induction false} NamesIff(ms: seq<FieldStart>, n: nat, name: string)
    requires n <= |ms|
    ensures name in Names(ms, n) <==> exists i :: 0 <= i < n && Lower(ms[i].name) == name
  {
    if n > 0 {
      NamesIff(ms, n - 1, name);
      if Lower(ms[n - 1].name) == name {
        assert 0 <= n - 1 < n && Lower(ms[n - 1].name) == name;
      }
    }
  }

  /** The field map's keys are the lower-cased names of the matches. */
  lemma {:induction false} FieldsKeys(ms: seq<FieldStart>, values: seq<Option<string>>, n: nat)
    requires |values| == |ms| && n <= |ms|
    requires FieldsUpTo(ms, values, n).Some?
    ensures FieldsUpTo(ms, values, n).value.Keys == Names(ms, n)
    decreases n
  {
    if n > 0 {
      FieldsKeys(ms, values, n - 1);
    }
  }

  /** Each key holds the value of the last match with that name. */
  lemma {:induction false} FieldsLastWins(ms: seq<FieldStart>, values: seq<Option<string>>, n: nat, i: nat)
    requires |values| == |ms| && i < n <= |ms|
    requires FieldsUpTo(ms, values, n).Some?
    requires forall j :: i < j < n ==> Lower(ms[j].name) != Lower(ms[i].name)
    ensures values[i].Some?
    ensures Lower(ms[i].name) in FieldsUpTo(ms, values, n).value
    ensures FieldsUpTo(ms, values, n).value[Lower(ms[i].name)] == values[i].value
    decreases n
  {
    if i < n - 1 {
      FieldsLastWins(ms, values, n - 1, i);
    }
  }

  /** Every key of the field map is lower-case. */
  lemma FieldKeysLowerCase(body: string)
    requires Fields(body).Some?
    ensures forall name, k :: name in Fields(body).value && 0 <= k < |name| ==> !IsUpper(name[k])
  {
    var ms := FieldStarts(body, 0);
    FieldsKeys(ms, FieldValues(body, ms), |ms|);
    forall name | name in Fields(body).value
      ensures forall k :: 0 <= k < |name| ==> !IsUpper(name[k])
    {
      NamesIff(ms, |ms|, name);
    }
  }
}
