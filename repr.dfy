/**
 * The constructor-call text of `__repr__` in src/citeable/_entries.py.
 *
 * Each class's `_repr_fields` lists its attributes in a fixed order,
 * leaving out the optional ones that are None, and `__repr__` puts an
 * explicit key in front when it differs from the generated one. The field
 * list is specified by a slot table, as for the BibTeX record; the
 * methods build it by appending, as the source does.
 */
module Repr {
  import opened Wrappers
  import opened Text
  import opened Keys
  import opened Entries
  import opened Rendering

  /** A named attribute value in `_repr_fields` order; `None` is left out. */
  type ReprSlot = (string, Option<Value>)

  /** An optional attribute as `_repr_fields` sees it: absent when it is None. */
  function Shown(v: Value): Option<Value> {
    if v == VNone then None else Some(v)
  }

  /** The attributes every class's `_repr_fields` lists first: author, title, year. */
  function RequiredReprSlots(b: Base): seq<ReprSlot> {
    [("author", Some(VList(b.author))), ("title", Some(VStr(b.title))), ("year", Some(VInt(b.year)))]
  }

  /** The attributes of the entry's own class, in `_repr_fields` order. */
  function OwnReprSlots(k: Kind): seq<ReprSlot> {
    match k
    case Article(journal, volume, pages, articleNumber, number) =>
      [("journal", Some(VStr(journal))), ("volume", Some(VInt(volume))),
       ("pages", Shown(OptText(pages))), ("article_number", Shown(OptText(articleNumber))),
       ("number", Shown(OptNumber(number)))]
    case Book(publisher, edition, editor) =>
      [("publisher", Some(VStr(publisher))),
       ("edition", Shown(OptText(edition))), ("editor", Shown(OptList(editor)))]
    case InProceedings(booktitle, pages, publisher, editor) =>
      [("booktitle", Some(VStr(booktitle))), ("pages", Shown(OptText(pages))),
       ("publisher", Shown(OptText(publisher))), ("editor", Shown(OptList(editor)))]
    case TechReport(institution, number) =>
      [("institution", Some(VStr(institution))), ("number", Shown(OptText(number)))]
    case Thesis(school, thesisType) =>
      [("school", Some(VStr(school))), ("thesis_type", Some(VStr(thesisType)))]
    case Software(publisher, version, license) =>
      [("publisher", Shown(OptText(publisher))), ("version", Shown(OptText(version))),
       ("license", Shown(OptText(license)))]
    case Misc =>
      []
  }

  /** The attributes each class's `_repr_fields` lists before the common optional ones. */
  function ReprKindSlots(e: Entry): seq<ReprSlot> {
    RequiredReprSlots(e.base) + OwnReprSlots(e.kind)
  }

  /** The slots `_append_common_optional_repr` appends: doi, url, note. */
  function ReprCommonSlots(b: Base): seq<ReprSlot> {
    [("doi", Shown(OptText(b.doi))), ("url", Shown(OptText(b.url))), ("note", Shown(OptText(b.note)))]
  }

  /** What `_repr_fields` returns. */
  function ReprFields(e: Entry): seq<(string, Value)> {
    Present(ReprKindSlots(e) + ReprCommonSlots(e.base))
  }

  /** The pairs `__repr__` renders: the key first when it is not the generated one. */
  function ReprFieldList(e: Entry): seq<(string, Value)>
    requires |e.base.author| > 0
  {
    (if e.base.key != GenerateKey(e.base.author, e.base.year) then [("key", VStr(e.base.key))] else []) +
    ReprFields(e)
  }

  /** A string in quotes. */
  function Quote(s: string): string {
    "'" + s + "'"
  }

  /** The text of a value: a quoted string, a decimal integer, a bracketed list or None. */
  function ReprValue(v: Value): string {
    match v
    case VNone => "None"
    case VStr(s) => Quote(s)
    case VInt(n) => IntToString(n)
    case VList(items) => "[" + Join(seq(|items|, i requires 0 <= i < |items| => Quote(items[i])), ", ") + "]"
  }

  /** One line of `__repr__`: four spaces, `name=value` and a comma. */
  function ReprLine(field: (string, Value)): string {
    "    " + field.0 + "=" + ReprValue(field.1) + ","
  }

  function ReprLines(fields: seq<(string, Value)>): (r: seq<string>)
    ensures |r| == |fields|
    ensures forall i :: 0 <= i < |fields| ==> r[i] == ReprLine(fields[i])
  {
    seq(|fields|, i requires 0 <= i < |fields| => ReprLine(fields[i]))
  }

  /** The whole `__repr__` text: the class name, the lines, and the closing parenthesis. */
  function ReprText(e: Entry): string
    requires |e.base.author| > 0
  {
    TypeName(TypeOf(e.kind)) + "(\n" + Join(ReprLines(ReprFieldList(e)), "\n") + "\n)"
  }

  // =====================================================================
  // Properties of the field list

  /** author, title and year always come first, in that order. */
  lemma ReprRequiredFirst(e: Entry)
    ensures |ReprFields(e)| >= 3
    ensures ReprFields(e)[..3] ==
              [("author", VList(e.base.author)), ("title", VStr(e.base.title)), ("year", VInt(e.base.year))]
  {
    var b := e.base;
    var required := RequiredReprSlots(b);
    var rest := OwnReprSlots(e.kind) + ReprCommonSlots(b);
    assert ReprKindSlots(e) + ReprCommonSlots(b) == required + rest;
    PresentConcat(required, rest);
    assert required[1..][1..][1..] == [];
    assert Present(required[1..][1..]) == [("year", VInt(b.year))];
    assert Present(required[1..]) == [("title", VStr(b.title)), ("year", VInt(b.year))];
  }

  /** The key is shown, first, exactly when it is not the one `generate_key` gives. */
  lemma KeyShownIff(e: Entry)
    requires |e.base.author| > 0
    ensures |ReprFieldList(e)| > 0
    ensures ReprFieldList(e)[0].0 == "key" <==> e.base.key != GenerateKey(e.base.author, e.base.year)
    ensures e.base.key != GenerateKey(e.base.author, e.base.year) ==>
              ReprFieldList(e)[0] == ("key", VStr(e.base.key))
  {
    ReprRequiredFirst(e);
    assert ReprFields(e)[0] == ReprFields(e)[..3][0];
  }

  /** The list never holds a None: absent optional attributes are left out. */
  lemma {:induction false} PresentHoldsNoNone(slots: seq<ReprSlot>)
    requires forall i :: 0 <= i < |slots| ==> slots[i].1 != Some(VNone)
    ensures forall i :: 0 <= i < |Present(slots)| ==> Present(slots)[i].1 != VNone
    decreases |slots|
  {
    if |slots| > 0 {
      PresentHoldsNoNone(slots[1..]);
    }
  }

  lemma ReprOmitsNone(e: Entry)
    ensures forall i :: 0 <= i < |ReprFields(e)| ==> ReprFields(e)[i].1 != VNone
  {
    PresentHoldsNoNone(ReprKindSlots(e) + ReprCommonSlots(e.base));
  }

  /** doi, url and note are listed, with their value, exactly when they are set. */
  lemma ReprCommonShownIff(e: Entry, value: string)
    ensures ("doi", VStr(value)) in ReprFields(e) <==> e.base.doi == Some(value)
    ensures ("url", VStr(value)) in ReprFields(e) <==> e.base.url == Some(value)
    ensures ("note", VStr(value)) in ReprFields(e) <==> e.base.note == Some(value)
  {
    var slots := ReprKindSlots(e) + ReprCommonSlots(e.base);
    var names := set i | 0 <= i < |ReprKindSlots(e)| :: ReprKindSlots(e)[i].0;
    assert "doi" !in names && "url" !in names && "note" !in names;
    PresentIff(slots, "doi", VStr(value));
    PresentIff(slots, "url", VStr(value));
    PresentIff(slots, "note", VStr(value));
  }

  /** Slot values that are set agree with a map of attributes. */
  predicate SlotsAgree(slots: seq<ReprSlot>, attrs: Kwargs) {
    forall i :: 0 <= i < |slots| && slots[i].1.Some? ==>
      slots[i].0 in attrs && attrs[slots[i].0] == slots[i].1.value
  }

  lemma {:induction false} PresentAgrees(slots: seq<ReprSlot>, attrs: Kwargs)
    requires SlotsAgree(slots, attrs)
    ensures forall i :: 0 <= i < |Present(slots)| ==>
              Present(slots)[i].0 in attrs && attrs[Present(slots)[i].0] == Present(slots)[i].1
    decreases |slots|
  {
    if |slots| > 0 {
      PresentAgrees(slots[1..], attrs);
    }
  }

  /**
   * Every pair `_repr_fields` lists is an attribute of the entry with its
   * value, as `to_dict` also gives it.
   */
  lemma ReprAgreesWithVars(e: Entry)
    ensures forall i :: 0 <= i < |ReprFields(e)| ==>
              ReprFields(e)[i].0 in Vars(e) && Vars(e)[ReprFields(e)[i].0] == ReprFields(e)[i].1
  {
    var slots := ReprKindSlots(e) + ReprCommonSlots(e.base);
    BaseSlotsAgree(e);
    match e.kind {
      case Article(_, _, _, _, _) => ArticleSlotsAgree(e);
      case Book(_, _, _) => BookSlotsAgree(e);
      case InProceedings(_, _, _, _) => InProceedingsSlotsAgree(e);
      case TechReport(_, _) => TechReportSlotsAgree(e);
      case Thesis(_, _) => ThesisSlotsAgree(e);
      case Software(_, _, _) => SoftwareSlotsAgree(e);
      case Misc =>
    }
    assert SlotsAgree(slots, Vars(e));
    PresentAgrees(slots, Vars(e));
  }

  /** The author, title, year, doi, url and note slots agree with the attributes. */
  lemma BaseSlotsAgree(e: Entry)
    ensures SlotsAgree(RequiredReprSlots(e.base), Vars(e))
    ensures SlotsAgree(ReprCommonSlots(e.base), Vars(e))
  {
    BaseAt(e, "author");
    BaseAt(e, "title");
    BaseAt(e, "year");
    BaseAt(e, "doi");
    BaseAt(e, "url");
    BaseAt(e, "note");
  }

  lemma ArticleSlotsAgree(e: Entry)
    requires e.kind.Article?
    ensures SlotsAgree(OwnReprSlots(e.kind), Vars(e))
  {
    KindAt(e, "journal");
    KindAt(e, "volume");
    KindAt(e, "pages");
    KindAt(e, "article_number");
    KindAt(e, "number");
  }

  lemma BookSlotsAgree(e: Entry)
    requires e.kind.Book?
    ensures SlotsAgree(OwnReprSlots(e.kind), Vars(e))
  {
    KindAt(e, "publisher");
    KindAt(e, "edition");
    KindAt(e, "editor");
  }

  lemma InProceedingsSlotsAgree(e: Entry)
    requires e.kind.InProceedings?
    ensures SlotsAgree(OwnReprSlots(e.kind), Vars(e))
  {
    KindAt(e, "booktitle");
    KindAt(e, "pages");
    KindAt(e, "publisher");
    KindAt(e, "editor");
  }

  lemma TechReportSlotsAgree(e: Entry)
    requires e.kind.TechReport?
    ensures SlotsAgree(OwnReprSlots(e.kind), Vars(e))
  {
    KindAt(e, "institution");
    KindAt(e, "number");
  }

  lemma ThesisSlotsAgree(e: Entry)
    requires e.kind.Thesis?
    ensures SlotsAgree(OwnReprSlots(e.kind), Vars(e))
  {
    KindAt(e, "school");
    KindAt(e, "thesis_type");
  }

  lemma SoftwareSlotsAgree(e: Entry)
    requires e.kind.Software?
    ensures SlotsAgree(OwnReprSlots(e.kind), Vars(e))
  {
    KindAt(e, "publisher");
    KindAt(e, "version");
    KindAt(e, "license");
  }

  // =====================================================================
  // Building the field list and the text

  /**
   * Appends a pair when the attribute is set: the source's
   * `fields.append(...)`, under `if ... is not None` for an optional one.
   * `done` are the slots already considered.
   */
  method AppendPairIfSet(fields: seq<(string, Value)>, ghost done: seq<ReprSlot>,
                         name: string, value: Option<Value>) returns (result: seq<(string, Value)>)
    requires fields == Present(done)
    ensures result == Present(done + [(name, value)])
  {
    if value.Some? {
      result := fields + [(name, value.value)];
    } else {
      result := fields;
    }
    PresentConcat(done, [(name, value)]);
    assert [(name, value)][1..] == [];
  }

  /** The pairs every `_repr_fields` starts its list with. */
  method RequiredReprFields(b: Base) returns (fields: seq<(string, Value)>)
    ensures fields == Present(RequiredReprSlots(b))
  {
    fields := [];
    assert fields == Present([]);
    fields := AppendPairIfSet(fields, [], "author", Some(VList(b.author)));
    fields := AppendPairIfSet(fields, [("author", Some(VList(b.author)))], "title", Some(VStr(b.title)));
    fields := AppendPairIfSet(fields, [("author", Some(VList(b.author)))] + [("title", Some(VStr(b.title)))],
                              "year", Some(VInt(b.year)));
    assert [("author", Some(VList(b.author)))] + [("title", Some(VStr(b.title)))] +
           [("year", Some(VInt(b.year)))] == RequiredReprSlots(b);
  }

  /** `_append_common_optional_repr`: appends the doi, url and note pairs that are set. */
  method AppendCommonOptionalRepr(b: Base, fields: seq<(string, Value)>, ghost done: seq<ReprSlot>)
    returns (result: seq<(string, Value)>)
    requires fields == Present(done)
    ensures result == Present(done + ReprCommonSlots(b))
  {
    result := AppendPairIfSet(fields, done, "doi", Shown(OptText(b.doi)));
    result := AppendPairIfSet(result, done + [("doi", Shown(OptText(b.doi)))], "url", Shown(OptText(b.url)));
    result := AppendPairIfSet(result, done + [("doi", Shown(OptText(b.doi)))] + [("url", Shown(OptText(b.url)))],
                              "note", Shown(OptText(b.note)));
    assert done + [("doi", Shown(OptText(b.doi)))] + [("url", Shown(OptText(b.url)))] +
           [("note", Shown(OptText(b.note)))] == done + ReprCommonSlots(b);
  }

  /** `Article._repr_fields`. */
  method ArticleReprFields(e: Entry) returns (fields: seq<(string, Value)>)
    requires e.kind.Article?
    ensures fields == ReprFields(e)
  {
    var Article(journal, volume, pages, articleNumber, number) := e.kind;
    fields := RequiredReprFields(e.base);
    ghost var done := RequiredReprSlots(e.base);
    fields := AppendPairIfSet(fields, done, "journal", Some(VStr(journal)));
    done := done + [("journal", Some(VStr(journal)))];
    fields := AppendPairIfSet(fields, done, "volume", Some(VInt(volume)));
    done := done + [("volume", Some(VInt(volume)))];
    fields := AppendPairIfSet(fields, done, "pages", Shown(OptText(pages)));
    done := done + [("pages", Shown(OptText(pages)))];
    fields := AppendPairIfSet(fields, done, "article_number", Shown(OptText(articleNumber)));
    done := done + [("article_number", Shown(OptText(articleNumber)))];
    fields := AppendPairIfSet(fields, done, "number", Shown(OptNumber(number)));
    done := done + [("number", Shown(OptNumber(number)))];
    assert done == ReprKindSlots(e);
    fields := AppendCommonOptionalRepr(e.base, fields, done);
  }

  /** `Book._repr_fields`. */
  method BookReprFields(e: Entry) returns (fields: seq<(string, Value)>)
    requires e.kind.Book?
    ensures fields == ReprFields(e)
  {
    var Book(publisher, edition, editor) := e.kind;
    fields := RequiredReprFields(e.base);
    ghost var done := RequiredReprSlots(e.base);
    fields := AppendPairIfSet(fields, done, "publisher", Some(VStr(publisher)));
    done := done + [("publisher", Some(VStr(publisher)))];
    fields := AppendPairIfSet(fields, done, "edition", Shown(OptText(edition)));
    done := done + [("edition", Shown(OptText(edition)))];
    fields := AppendPairIfSet(fields, done, "editor", Shown(OptList(editor)));
    done := done + [("editor", Shown(OptList(editor)))];
    assert done == ReprKindSlots(e);
    fields := AppendCommonOptionalRepr(e.base, fields, done);
  }

  /** `InProceedings._repr_fields`. */
  method InProceedingsReprFields(e: Entry) returns (fields: seq<(string, Value)>)
    requires e.kind.InProceedings?
    ensures fields == ReprFields(e)
  {
    var InProceedings(booktitle, pages, publisher, editor) := e.kind;
    fields := RequiredReprFields(e.base);
    ghost var done := RequiredReprSlots(e.base);
    fields := AppendPairIfSet(fields, done, "booktitle", Some(VStr(booktitle)));
    done := done + [("booktitle", Some(VStr(booktitle)))];
    fields := AppendPairIfSet(fields, done, "pages", Shown(OptText(pages)));
    done := done + [("pages", Shown(OptText(pages)))];
    fields := AppendPairIfSet(fields, done, "publisher", Shown(OptText(publisher)));
    done := done + [("publisher", Shown(OptText(publisher)))];
    fields := AppendPairIfSet(fields, done, "editor", Shown(OptList(editor)));
    done := done + [("editor", Shown(OptList(editor)))];
    assert done == ReprKindSlots(e);
    fields := AppendCommonOptionalRepr(e.base, fields, done);
  }

  /** `TechReport._repr_fields`. */
  method TechReportReprFields(e: Entry) returns (fields: seq<(string, Value)>)
    requires e.kind.TechReport?
    ensures fields == ReprFields(e)
  {
    var TechReport(institution, number) := e.kind;
    fields := RequiredReprFields(e.base);
    ghost var done := RequiredReprSlots(e.base);
    fields := AppendPairIfSet(fields, done, "institution", Some(VStr(institution)));
    done := done + [("institution", Some(VStr(institution)))];
    fields := AppendPairIfSet(fields, done, "number", Shown(OptText(number)));
    done := done + [("number", Shown(OptText(number)))];
    assert done == ReprKindSlots(e);
    fields := AppendCommonOptionalRepr(e.base, fields, done);
  }

  /** `Thesis._repr_fields`. */
  method ThesisReprFields(e: Entry) returns (fields: seq<(string, Value)>)
    requires e.kind.Thesis?
    ensures fields == ReprFields(e)
  {
    var Thesis(school, thesisType) := e.kind;
    fields := RequiredReprFields(e.base);
    ghost var done := RequiredReprSlots(e.base);
    fields := AppendPairIfSet(fields, done, "school", Some(VStr(school)));
    done := done + [("school", Some(VStr(school)))];
    fields := AppendPairIfSet(fields, done, "thesis_type", Some(VStr(thesisType)));
    done := done + [("thesis_type", Some(VStr(thesisType)))];
    assert done == ReprKindSlots(e);
    fields := AppendCommonOptionalRepr(e.base, fields, done);
  }

  /** `Software._repr_fields`. */
  method SoftwareReprFields(e: Entry) returns (fields: seq<(string, Value)>)
    requires e.kind.Software?
    ensures fields == ReprFields(e)
  {
    var Software(publisher, version, license) := e.kind;
    fields := RequiredReprFields(e.base);
    ghost var done := RequiredReprSlots(e.base);
    fields := AppendPairIfSet(fields, done, "publisher", Shown(OptText(publisher)));
    done := done + [("publisher", Shown(OptText(publisher)))];
    fields := AppendPairIfSet(fields, done, "version", Shown(OptText(version)));
    done := done + [("version", Shown(OptText(version)))];
    fields := AppendPairIfSet(fields, done, "license", Shown(OptText(license)));
    done := done + [("license", Shown(OptText(license)))];
    assert done == ReprKindSlots(e);
    fields := AppendCommonOptionalRepr(e.base, fields, done);
  }

  /** `Misc._repr_fields`. */
  method MiscReprFields(e: Entry) returns (fields: seq<(string, Value)>)
    requires e.kind.Misc?
    ensures fields == ReprFields(e)
  {
    fields := RequiredReprFields(e.base);
    ghost var done := RequiredReprSlots(e.base);
    assert done == ReprKindSlots(e);
    fields := AppendCommonOptionalRepr(e.base, fields, done);
  }

  /** `_repr_fields`, dispatched on the entry's class. */
  method CollectReprFields(e: Entry) returns (fields: seq<(string, Value)>)
    ensures fields == ReprFields(e)
  {
    match e.kind {
      case Article(_, _, _, _, _) => fields := ArticleReprFields(e);
      case Book(_, _, _) => fields := BookReprFields(e);
      case InProceedings(_, _, _, _) => fields := InProceedingsReprFields(e);
      case TechReport(_, _) => fields := TechReportReprFields(e);
      case Thesis(_, _) => fields := ThesisReprFields(e);
      case Software(_, _, _) => fields := SoftwareReprFields(e);
      case Misc => fields := MiscReprFields(e);
    }
  }

  /**
   * `__repr__`: the field list, the key in front when it is not the
   * generated one, one line per pair, inside the class name's parentheses.
   * Every entry has at least one author.
   */
  method ToRepr(e: Entry) returns (text: string)
    requires |e.base.author| > 0
    ensures text == ReprText(e)
  {
    var fields := CollectReprFields(e);
    var autoKey := GenerateKey(e.base.author, e.base.year);
    if e.base.key != autoKey {
      fields := [("key", VStr(e.base.key))] + fields;
    }
    assert fields == ReprFieldList(e);
    var parts := ReprLines(fields);
    var body := Join(parts, "\n");
    text := TypeName(TypeOf(e.kind)) + "(\n" + body + "\n)";
  }
}
