/**
 * The two text forms of an entry in src/citeable/_entries.py: the BibTeX
 * record of `__str__` and the constructor-call text of `__repr__`.
 *
 * Each form is specified by a table of `(name, value)` slots in the order
 * the source emits them, an absent optional value being `None`; the
 * methods build the list of lines step by step as the source does and are
 * proved to produce the text the table describes.
 */
module Rendering {
  import opened Wrappers
  import opened Text
  import opened Keys
  import opened Entries

  // =====================================================================
  // One BibTeX field line

  /** A field name as the source writes them: word characters only. */
  predicate FieldName(name: string) {
    |name| > 0 && forall k :: 0 <= k < |name| ==> IsWordChar(name[k])
  }

  /** `_format_bibtex_field`. */
  function FormatField(name: string, value: string): string {
    "  " + LJust(name, 10) + "= {" + value + "},"
  }

  /**
   * The field line layout: two spaces, the name left-justified to width
   * 10 (padded, never truncated), `= {`, the value and `},`.
   */
  lemma FormatFieldLayout(name: string, value: string)
    ensures var r := FormatField(name, value);
            && |r| == 2 + Max(|name|, 10) + 3 + |value| + 2
            && r[..2] == "  " && r[2..2 + |name|] == name
            && (forall k :: 2 + |name| <= k < 2 + Max(|name|, 10) ==> r[k] == ' ')
            && r[2 + Max(|name|, 10)..] == "= {" + value + "},"
  {
    var padded := LJust(name, 10);
    var r := FormatField(name, value);
    assert r[2..2 + |padded|] == padded;
    assert r[2..2 + |name|] == padded[..|name|];
  }

  /**
   * Reads a field line back: the name is the run of word characters after
   * the two-space indent, then come spaces, `= {`, the value and `},`.
   */
  function ParseFieldLine(line: string): (r: Option<(string, string)>)
    ensures r.Some? ==> FieldName(r.value.0)
  {
    if |line| < 2 || line[..2] != "  " then None
    else
      var nameEnd := WordEnd(line, 2);
      var valueStart := SpaceEnd(line, nameEnd) + 3;
      if nameEnd == 2 || valueStart + 2 > |line| then None
      else if line[valueStart - 3..valueStart] != "= {" || line[|line| - 2..] != "}," then None
      else Some((line[2..nameEnd], line[valueStart..|line| - 2]))
  }

  /** A formatted field line reads back as its name and value, whatever the value. */
  lemma FieldLineRoundTrip(name: string, value: string)
    requires FieldName(name)
    ensures ParseFieldLine(FormatField(name, value)) == Some((name, value))
  {
    var line := FormatField(name, value);
    var width := Max(|name|, 10);
    FormatFieldLayout(name, value);
    assert line[2 + |name|] == ' ' || line[2 + |name|] == '=' by {
      if |name| < 10 {
        assert line[2 + |name|] == ' ';
      } else {
        assert line[2 + width..][0] == '=';
      }
    }
    assert forall k :: 2 <= k < 2 + |name| ==> IsWordChar(line[k]) by {
      forall k | 2 <= k < 2 + |name|
        ensures IsWordChar(line[k])
      {
        assert line[2..2 + |name|][k - 2] == line[k];
      }
    }
    assert line[2 + width] == '=' by {
      assert line[2 + width..][0] == '=';
    }
    WordEndIs(line, 2, 2 + |name|);
    SpaceEndIs(line, 2 + |name|, 2 + width);
    var tail := line[2 + width..];
    assert tail == "= {" + value + "},";
    assert line[2 + width..2 + width + 3] == tail[..3];
    assert line[|line| - 2..] == tail[|tail| - 2..];
    assert line[2 + width + 3..|line| - 2] == tail[3..|tail| - 2];
  }

  /** Different (name, value) pairs give different lines. */
  lemma FieldLineInjective(n1: string, v1: string, n2: string, v2: string)
    requires FieldName(n1) && FieldName(n2)
    ensures FormatField(n1, v1) == FormatField(n2, v2) <==> n1 == n2 && v1 == v2
  {
    FieldLineRoundTrip(n1, v1);
    FieldLineRoundTrip(n2, v2);
  }

  /** `_author_str`: the names joined by " and ". */
  function AuthorStr(authors: seq<string>): string {
    Join(authors, " and ")
  }

  // =====================================================================
  // Slot tables

  /** A named value in emission order; `None` is an absent optional value. */
  type Slot = (string, Option<string>)

  /** The (name, value) pairs of the slots whose value is present, in order. */
  function Present<T>(slots: seq<(string, Option<T>)>): (r: seq<(string, T)>)
    ensures |r| <= |slots|
  {
    if |slots| == 0 then []
    else
      var rest := Present(slots[1..]);
      if slots[0].1.Some? then [(slots[0].0, slots[0].1.value)] + rest else rest
  }

  /** The field lines of the present slots. */
  function FieldLines(slots: seq<Slot>): (r: seq<string>)
    ensures |r| == |Present(slots)|
  {
    if |slots| == 0 then []
    else
      var rest := FieldLines(slots[1..]);
      if slots[0].1.Some? then [FormatField(slots[0].0, slots[0].1.value)] + rest else rest
  }

  lemma {:induction false} PresentConcat<T>(a: seq<(string, Option<T>)>, b: seq<(string, Option<T>)>)
    ensures Present(a + b) == Present(a) + Present(b)
    decreases |a|
  {
    if |a| == 0 {
      assert a + b == b;
    } else {
      assert (a + b)[1..] == a[1..] + b;
      PresentConcat(a[1..], b);
    }
  }

  lemma {:induction false} FieldLinesConcat(a: seq<Slot>, b: seq<Slot>)
    ensures FieldLines(a + b) == FieldLines(a) + FieldLines(b)
    decreases |a|
  {
    if |a| == 0 {
      assert a + b == b;
    } else {
      assert (a + b)[1..] == a[1..] + b;
      FieldLinesConcat(a[1..], b);
    }
  }

  /** A pair is kept iff its slot holds a value. */
  lemma {:induction false} PresentIff<T>(slots: seq<(string, Option<T>)>, name: string, value: T)
    ensures (name, value) in Present(slots) <==> (name, Some(value)) in slots
    decreases |slots|
  {
    if |slots| > 0 {
      PresentIff(slots[1..], name, value);
      assert slots == [slots[0]] + slots[1..];
    }
  }

  /** Every name in a slot table is a field name. */
  predicate NamesAreFieldNames(slots: seq<Slot>) {
    forall i :: 0 <= i < |slots| ==> FieldName(slots[i].0)
  }

  /** Every field line reads back as the pair it was made from. */
  lemma {:induction false} FieldLinesParse(slots: seq<Slot>)
    requires NamesAreFieldNames(slots)
    ensures forall i :: 0 <= i < |FieldLines(slots)| ==>
              ParseFieldLine(FieldLines(slots)[i]) == Some(Present(slots)[i])
    decreases |slots|
  {
    if |slots| > 0 {
      FieldLinesParse(slots[1..]);
      if slots[0].1.Some? {
        FieldLineRoundTrip(slots[0].0, slots[0].1.value);
      }
    }
  }

  // =====================================================================
  // __str__: the BibTeX record

  /** The BibTeX entry type; a Thesis is `phdthesis` iff its type is "phd". */
  function BibType(k: Kind): (r: string)
    ensures k.Thesis? ==> (r == "phdthesis" <==> k.thesisType == "phd")
    ensures k.Thesis? && k.thesisType != "phd" ==> r == "mastersthesis"
    ensures !k.Thesis? ==> r == Lower(TypeName(TypeOf(k)))
  {
    match k
    case Article(_, _, _, _, _) => "article"
    case Book(_, _, _) => "book"
    case InProceedings(_, _, _, _) => "inproceedings"
    case TechReport(_, _) => "techreport"
    case Thesis(_, thesisType) => if thesisType == "phd" then "phdthesis" else "mastersthesis"
    case Software(_, _, _) => "software"
    case Misc => "misc"
  }

  /** The first line: `@<bibtype>{<key>,`. */
  function Header(e: Entry): string {
    "@" + BibType(e.kind) + "{" + e.base.key + ","
  }

  /** The slots each class's `__str__` emits before the common optional ones. */
  function KindSlots(e: Entry): seq<Slot> {
    var b := e.base;
    var author, title, year := Some(AuthorStr(b.author)), Some(b.title), Some(IntToString(b.year));
    match e.kind
    case Article(journal, volume, pages, articleNumber, number) =>
      [("author", author), ("title", title), ("journal", Some(journal)), ("year", year)] +
      [("volume", Some(IntToString(volume))),
       ("number", if number.Some? then Some(IntToString(number.value)) else None),
       ("pages", pages), ("article_number", articleNumber)]
    case Book(publisher, edition, editor) =>
      [("author", author), ("title", title), ("publisher", Some(publisher)), ("year", year),
       ("edition", edition), ("editor", if editor.Some? then Some(AuthorStr(editor.value)) else None)]
    case InProceedings(booktitle, pages, publisher, editor) =>
      [("author", author), ("title", title), ("booktitle", Some(booktitle)), ("year", year),
       ("pages", pages), ("publisher", publisher),
       ("editor", if editor.Some? then Some(AuthorStr(editor.value)) else None)]
    case TechReport(institution, number) =>
      [("author", author), ("title", title), ("institution", Some(institution)), ("year", year),
       ("number", number)]
    case Thesis(school, _) =>
      [("author", author), ("title", title), ("school", Some(school)), ("year", year)]
    case Software(publisher, version, license) =>
      [("author", author), ("title", title), ("year", year),
       ("publisher", publisher), ("version", version), ("license", license)]
    case Misc =>
      [("author", author), ("title", title), ("year", year)]
  }

  /** The slots `_append_common_bibtex` emits: doi, url, note. */
  function CommonSlots(b: Base): seq<Slot> {
    [("doi", b.doi), ("url", b.url), ("note", b.note)]
  }

  /** The fields of an entry's BibTeX record, in order. */
  function BibtexFields(e: Entry): seq<(string, string)> {
    Present(KindSlots(e) + CommonSlots(e.base))
  }

  /** The lines of `__str__`: the header, one line per present field, and `}`. */
  function BibtexLines(e: Entry): (r: seq<string>)
    ensures |r| == |BibtexFields(e)| + 2
    ensures r[0] == Header(e) && r[|r| - 1] == "}"
  {
    [Header(e)] + FieldLines(KindSlots(e) + CommonSlots(e.base)) + ["}"]
  }

  /** The names the classes render are field names. */
  lemma RenderedNames()
    ensures FieldName("author") && FieldName("title") && FieldName("year")
    ensures FieldName("journal") && FieldName("volume") && FieldName("number")
    ensures FieldName("pages") && FieldName("article_number")
  {
  }

  /** More of the names the classes render. */
  lemma MoreRenderedNames()
    ensures FieldName("publisher") && FieldName("edition") && FieldName("editor")
    ensures FieldName("booktitle") && FieldName("institution") && FieldName("school")
    ensures FieldName("version") && FieldName("license")
    ensures FieldName("doi") && FieldName("url") && FieldName("note")
  {
  }

  lemma KindSlotNames(e: Entry)
    ensures NamesAreFieldNames(KindSlots(e))
  {
    RenderedNames();
    MoreRenderedNames();
  }

  lemma CommonSlotNames(b: Base)
    ensures NamesAreFieldNames(CommonSlots(b))
  {
    MoreRenderedNames();
  }

  /**
   * The record's layout: between the header and `}` each line is the
   * formatted field it reads back as.
   */
  lemma BibtexLayout(e: Entry)
    ensures forall i :: 0 <= i < |BibtexFields(e)| ==>
              ParseFieldLine(BibtexLines(e)[i + 1]) == Some(BibtexFields(e)[i])
  {
    var slots := KindSlots(e) + CommonSlots(e.base);
    KindSlotNames(e);
    CommonSlotNames(e.base);
    assert NamesAreFieldNames(slots);
    FieldLinesParse(slots);
    var lines := BibtexLines(e);
    forall i | 0 <= i < |BibtexFields(e)|
      ensures ParseFieldLine(lines[i + 1]) == Some(BibtexFields(e)[i])
    {
      assert lines[i + 1] == FieldLines(slots)[i];
    }
  }

  /** No slot of a class's own fields is named doi, url or note. */
  lemma CommonNotInKindSlots(e: Entry, name: string, value: Option<string>)
    requires name == "doi" || name == "url" || name == "note"
    ensures (name, value) !in KindSlots(e)
  {
  }

  /** A common optional field is rendered, with its value, iff it is not None. */
  lemma CommonFieldShownIff(e: Entry, value: string)
    ensures ("doi", value) in BibtexFields(e) <==> e.base.doi == Some(value)
    ensures ("url", value) in BibtexFields(e) <==> e.base.url == Some(value)
    ensures ("note", value) in BibtexFields(e) <==> e.base.note == Some(value)
  {
    var k, c := KindSlots(e), CommonSlots(e.base);
    CommonNotInKindSlots(e, "doi", Some(value));
    CommonNotInKindSlots(e, "url", Some(value));
    CommonNotInKindSlots(e, "note", Some(value));
    PresentIff(k + c, "doi", value);
    PresentIff(k + c, "url", value);
    PresentIff(k + c, "note", value);
  }

  /** doi, url and note come last, in that order, after the class's own fields. */
  lemma CommonFieldsLast(e: Entry)
    ensures BibtexFields(e) == Present(KindSlots(e)) + Present(CommonSlots(e.base))
    ensures Present(CommonSlots(e.base)) ==
              (if e.base.doi.Some? then [("doi", e.base.doi.value)] else []) +
              (if e.base.url.Some? then [("url", e.base.url.value)] else []) +
              (if e.base.note.Some? then [("note", e.base.note.value)] else [])
  {
    PresentConcat(KindSlots(e), CommonSlots(e.base));
    var b := e.base;
    var c := CommonSlots(b);
    assert c[1..] == [("url", b.url), ("note", b.note)];
    assert c[1..][1..] == [("note", b.note)];
    assert c[1..][1..][1..] == [];
    assert Present(c[1..][1..]) == if b.note.Some? then [("note", b.note.value)] else [];
    assert Present(c[1..]) ==
             (if b.url.Some? then [("url", b.url.value)] else []) + Present(c[1..][1..]);
  }

  // An optional field of the entry's own class is rendered, with its
  // value, iff it is not None: one lemma per class with optional fields.

  lemma ArticleOptionalShownIff(e: Entry, value: string, n: int)
    requires e.kind.Article?
    ensures ("pages", value) in BibtexFields(e) <==> e.kind.pages == Some(value)
    ensures ("article_number", value) in BibtexFields(e) <==> e.kind.articleNumber == Some(value)
    ensures ("number", IntToString(n)) in BibtexFields(e) <==> e.kind.number == Some(n)
  {
    var slots := KindSlots(e) + CommonSlots(e.base);
    PresentIff(slots, "pages", value);
    PresentIff(slots, "article_number", value);
    PresentIff(slots, "number", IntToString(n));
    if ("number", IntToString(n)) in BibtexFields(e) {
      assert e.kind.number.Some? && IntToString(e.kind.number.value) == IntToString(n);
      ParseIntOfIntToString(e.kind.number.value);
      ParseIntOfIntToString(n);
    }
  }

  lemma BookOptionalShownIff(e: Entry, value: string)
    requires e.kind.Book?
    ensures ("edition", value) in BibtexFields(e) <==> e.kind.edition == Some(value)
    ensures ("editor", value) in BibtexFields(e) <==>
              e.kind.editor.Some? && value == AuthorStr(e.kind.editor.value)
  {
    var slots := KindSlots(e) + CommonSlots(e.base);
    PresentIff(slots, "edition", value);
    PresentIff(slots, "editor", value);
  }

  lemma InProceedingsOptionalShownIff(e: Entry, value: string)
    requires e.kind.InProceedings?
    ensures ("pages", value) in BibtexFields(e) <==> e.kind.pages == Some(value)
    ensures ("publisher", value) in BibtexFields(e) <==> e.kind.proceedingsPublisher == Some(value)
    ensures ("editor", value) in BibtexFields(e) <==>
              e.kind.editor.Some? && value == AuthorStr(e.kind.editor.value)
  {
    var slots := KindSlots(e) + CommonSlots(e.base);
    PresentIff(slots, "pages", value);
    PresentIff(slots, "publisher", value);
    PresentIff(slots, "editor", value);
  }

  lemma TechReportOptionalShownIff(e: Entry, value: string)
    requires e.kind.TechReport?
    ensures ("number", value) in BibtexFields(e) <==> e.kind.reportNumber == Some(value)
  {
    var slots := KindSlots(e) + CommonSlots(e.base);
    PresentIff(slots, "number", value);
  }

  lemma SoftwareOptionalShownIff(e: Entry, value: string)
    requires e.kind.Software?
    ensures ("publisher", value) in BibtexFields(e) <==> e.kind.softwarePublisher == Some(value)
    ensures ("version", value) in BibtexFields(e) <==> e.kind.version == Some(value)
    ensures ("license", value) in BibtexFields(e) <==> e.kind.license == Some(value)
  {
    var slots := KindSlots(e) + CommonSlots(e.base);
    PresentIff(slots, "publisher", value);
    PresentIff(slots, "version", value);
    PresentIff(slots, "license", value);
  }

  /** The line a slot contributes: its field line when it holds a value, nothing otherwise. */
  function SlotLine(slot: Slot): seq<string> {
    if slot.1.Some? then [FormatField(slot.0, slot.1.value)] else []
  }

  lemma AppendSlot(slots: seq<Slot>, slot: Slot)
    ensures FieldLines(slots + [slot]) == FieldLines(slots) + SlotLine(slot)
  {
    FieldLinesConcat(slots, [slot]);
    assert [slot][1..] == [];
  }

  /**
   * Appends a field's line when it holds a value: the source's
   * `lines.append(...)`, under `if ... is not None` for an optional field.
   * `done` are the slots emitted after the lines of `prefix`.
   */
  method AppendFieldIfSet(lines: seq<string>, ghost prefix: seq<string>, ghost done: seq<Slot>,
                          name: string, value: Option<string>) returns (result: seq<string>)
    requires lines == prefix + FieldLines(done)
    ensures result == prefix + FieldLines(done + [(name, value)])
  {
    if value.Some? {
      result := lines + [FormatField(name, value.value)];
    } else {
      result := lines;
    }
    AppendSlot(done, (name, value));
  }

  /** `_append_common_bibtex`: appends the doi, url and note lines that are set to the caller's list. */
  method AppendCommonBibtex(b: Base, lines: seq<string>) returns (result: seq<string>)
    ensures result == lines + FieldLines(CommonSlots(b))
  {
    result := lines;
    assert result == lines + FieldLines([]);
    result := AppendFieldIfSet(result, lines, [], "doi", b.doi);
    result := AppendFieldIfSet(result, lines, [("doi", b.doi)], "url", b.url);
    result := AppendFieldIfSet(result, lines, [("doi", b.doi)] + [("url", b.url)], "note", b.note);
    assert [("doi", b.doi)] + [("url", b.url)] + [("note", b.note)] == CommonSlots(b);
  }

  /** Lines of the class's own fields, then doi/url/note, then `}`: the record's lines. */
  lemma FinishedLines(header: string, own: seq<Slot>, common: seq<Slot>)
    ensures [header] + FieldLines(own) + FieldLines(common) + ["}"] ==
            [header] + FieldLines(own + common) + ["}"]
  {
    FieldLinesConcat(own, common);
  }

  /** The common optional lines and the closing `}`, then the lines joined by newlines. */
  method FinishLines(e: Entry, lines: seq<string>) returns (text: string)
    requires lines == [Header(e)] + FieldLines(KindSlots(e))
    ensures text == Join(BibtexLines(e), "\n")
  {
    var all := AppendCommonBibtex(e.base, lines);
    all := all + ["}"];
    FinishedLines(Header(e), KindSlots(e), CommonSlots(e.base));
    text := Join(all, "\n");
  }

  /** `Article.__str__`. */
  method ArticleToBibtex(e: Entry) returns (text: string)
    requires e.kind.Article?
    ensures text == Join(BibtexLines(e), "\n")
  {
    var Article(journal, volume, pages, articleNumber, number) := e.kind;
    var lines := [Header(e)];
    ghost var done: seq<Slot> := [];
    lines := AppendFieldIfSet(lines, [Header(e)], done, "author", Some(AuthorStr(e.base.author)));
    done := done + [("author", Some(AuthorStr(e.base.author)))];
    lines := AppendFieldIfSet(lines, [Header(e)], done, "title", Some(e.base.title));
    done := done + [("title", Some(e.base.title))];
    lines := AppendFieldIfSet(lines, [Header(e)], done, "journal", Some(journal));
    done := done + [("journal", Some(journal))];
    lines := AppendFieldIfSet(lines, [Header(e)], done, "year", Some(IntToString(e.base.year)));
    done := done + [("year", Some(IntToString(e.base.year)))];
    ghost var required := done;
    lines := AppendFieldIfSet(lines, [Header(e)], done, "volume", Some(IntToString(volume)));
    done := done + [("volume", Some(IntToString(volume)))];
    var numberText := if number.Some? then Some(IntToString(number.value)) else None;
    lines := AppendFieldIfSet(lines, [Header(e)], done, "number", numberText);
    done := done + [("number", numberText)];
    lines := AppendFieldIfSet(lines, [Header(e)], done, "pages", pages);
    done := done + [("pages", pages)];
    lines := AppendFieldIfSet(lines, [Header(e)], done, "article_number", articleNumber);
    done := done + [("article_number", articleNumber)];
    assert done == required + done[4..];
    assert done == KindSlots(e);
    text := FinishLines(e, lines);
  }

  /** `Book.__str__`. */
  method BookToBibtex(e: Entry) returns (text: string)
    requires e.kind.Book?
    ensures text == Join(BibtexLines(e), "\n")
  {
    var Book(publisher, edition, editor) := e.kind;
    var lines := [Header(e)];
    ghost var done: seq<Slot> := [];
    lines := AppendFieldIfSet(lines, [Header(e)], done, "author", Some(AuthorStr(e.base.author)));
    done := done + [("author", Some(AuthorStr(e.base.author)))];
    lines := AppendFieldIfSet(lines, [Header(e)], done, "title", Some(e.base.title));
    done := done + [("title", Some(e.base.title))];
    lines := AppendFieldIfSet(lines, [Header(e)], done, "publisher", Some(publisher));
    done := done + [("publisher", Some(publisher))];
    lines := AppendFieldIfSet(lines, [Header(e)], done, "year", Some(IntToString(e.base.year)));
    done := done + [("year", Some(IntToString(e.base.year)))];
    lines := AppendFieldIfSet(lines, [Header(e)], done, "edition", edition);
    done := done + [("edition", edition)];
    lines := AppendFieldIfSet(lines, [Header(e)], done, "editor", if editor.Some? then Some(AuthorStr(editor.value)) else None);
    done := done + [("editor", if editor.Some? then Some(AuthorStr(editor.value)) else None)];
    assert done == KindSlots(e);
    text := FinishLines(e, lines);
  }

  /** `InProceedings.__str__`. */
  method InProceedingsToBibtex(e: Entry) returns (text: string)
    requires e.kind.InProceedings?
    ensures text == Join(BibtexLines(e), "\n")
  {
    var InProceedings(booktitle, pages, publisher, editor) := e.kind;
    var lines := [Header(e)];
    ghost var done: seq<Slot> := [];
    lines := AppendFieldIfSet(lines, [Header(e)], done, "author", Some(AuthorStr(e.base.author)));
    done := done + [("author", Some(AuthorStr(e.base.author)))];
    lines := AppendFieldIfSet(lines, [Header(e)], done, "title", Some(e.base.title));
    done := done + [("title", Some(e.base.title))];
    lines := AppendFieldIfSet(lines, [Header(e)], done, "booktitle", Some(booktitle));
    done := done + [("booktitle", Some(booktitle))];
    lines := AppendFieldIfSet(lines, [Header(e)], done, "year", Some(IntToString(e.base.year)));
    done := done + [("year", Some(IntToString(e.base.year)))];
    lines := AppendFieldIfSet(lines, [Header(e)], done, "pages", pages);
    done := done + [("pages", pages)];
    lines := AppendFieldIfSet(lines, [Header(e)], done, "publisher", publisher);
    done := done + [("publisher", publisher)];
    lines := AppendFieldIfSet(lines, [Header(e)], done, "editor", if editor.Some? then Some(AuthorStr(editor.value)) else None);
    done := done + [("editor", if editor.Some? then Some(AuthorStr(editor.value)) else None)];
    assert done == KindSlots(e);
    text := FinishLines(e, lines);
  }

  /** `TechReport.__str__`. */
  method TechReportToBibtex(e: Entry) returns (text: string)
    requires e.kind.TechReport?
    ensures text == Join(BibtexLines(e), "\n")
  {
    var TechReport(institution, number) := e.kind;
    var lines := [Header(e)];
    ghost var done: seq<Slot> := [];
    lines := AppendFieldIfSet(lines, [Header(e)], done, "author", Some(AuthorStr(e.base.author)));
    done := done + [("author", Some(AuthorStr(e.base.author)))];
    lines := AppendFieldIfSet(lines, [Header(e)], done, "title", Some(e.base.title));
    done := done + [("title", Some(e.base.title))];
    lines := AppendFieldIfSet(lines, [Header(e)], done, "institution", Some(institution));
    done := done + [("institution", Some(institution))];
    lines := AppendFieldIfSet(lines, [Header(e)], done, "year", Some(IntToString(e.base.year)));
    done := done + [("year", Some(IntToString(e.base.year)))];
    lines := AppendFieldIfSet(lines, [Header(e)], done, "number", number);
    done := done + [("number", number)];
    assert done == KindSlots(e);
    text := FinishLines(e, lines);
  }

  /** `Thesis.__str__`. */
  method ThesisToBibtex(e: Entry) returns (text: string)
    requires e.kind.Thesis?
    ensures text == Join(BibtexLines(e), "\n")
  {
    var Thesis(school, _) := e.kind;
    var lines := [Header(e)];
    ghost var done: seq<Slot> := [];
    lines := AppendFieldIfSet(lines, [Header(e)], done, "author", Some(AuthorStr(e.base.author)));
    done := done + [("author", Some(AuthorStr(e.base.author)))];
    lines := AppendFieldIfSet(lines, [Header(e)], done, "title", Some(e.base.title));
    done := done + [("title", Some(e.base.title))];
    lines := AppendFieldIfSet(lines, [Header(e)], done, "school", Some(school));
    done := done + [("school", Some(school))];
    lines := AppendFieldIfSet(lines, [Header(e)], done, "year", Some(IntToString(e.base.year)));
    done := done + [("year", Some(IntToString(e.base.year)))];
    assert done == KindSlots(e);
    text := FinishLines(e, lines);
  }

  /** `Software.__str__`. */
  method SoftwareToBibtex(e: Entry) returns (text: string)
    requires e.kind.Software?
    ensures text == Join(BibtexLines(e), "\n")
  {
    var Software(publisher, version, license) := e.kind;
    var lines := [Header(e)];
    ghost var done: seq<Slot> := [];
    lines := AppendFieldIfSet(lines, [Header(e)], done, "author", Some(AuthorStr(e.base.author)));
    done := done + [("author", Some(AuthorStr(e.base.author)))];
    lines := AppendFieldIfSet(lines, [Header(e)], done, "title", Some(e.base.title));
    done := done + [("title", Some(e.base.title))];
    lines := AppendFieldIfSet(lines, [Header(e)], done, "year", Some(IntToString(e.base.year)));
    done := done + [("year", Some(IntToString(e.base.year)))];
    lines := AppendFieldIfSet(lines, [Header(e)], done, "publisher", publisher);
    done := done + [("publisher", publisher)];
    lines := AppendFieldIfSet(lines, [Header(e)], done, "version", version);
    done := done + [("version", version)];
    lines := AppendFieldIfSet(lines, [Header(e)], done, "license", license);
    done := done + [("license", license)];
    assert done == KindSlots(e);
    text := FinishLines(e, lines);
  }

  /** `Misc.__str__`. */
  method MiscToBibtex(e: Entry) returns (text: string)
    requires e.kind.Misc?
    ensures text == Join(BibtexLines(e), "\n")
  {
    var lines := [Header(e)];
    ghost var done: seq<Slot> := [];
    lines := AppendFieldIfSet(lines, [Header(e)], done, "author", Some(AuthorStr(e.base.author)));
    done := done + [("author", Some(AuthorStr(e.base.author)))];
    lines := AppendFieldIfSet(lines, [Header(e)], done, "title", Some(e.base.title));
    done := done + [("title", Some(e.base.title))];
    lines := AppendFieldIfSet(lines, [Header(e)], done, "year", Some(IntToString(e.base.year)));
    done := done + [("year", Some(IntToString(e.base.year)))];
    assert done == KindSlots(e);
    text := FinishLines(e, lines);
  }

  /** `__str__`, dispatched on the entry's class. */
  method ToBibtex(e: Entry) returns (text: string)
    ensures text == Join(BibtexLines(e), "\n")
  {
    match e.kind {
      case Article(_, _, _, _, _) => text := ArticleToBibtex(e);
      case Book(_, _, _) => text := BookToBibtex(e);
      case InProceedings(_, _, _, _) => text := InProceedingsToBibtex(e);
      case TechReport(_, _) => text := TechReportToBibtex(e);
      case Thesis(_, _) => text := ThesisToBibtex(e);
      case Software(_, _, _) => text := SoftwareToBibtex(e);
      case Misc => text := MiscToBibtex(e);
    }
  }
}
