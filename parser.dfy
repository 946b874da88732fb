/**
 * `from_bibtex_string` and its helpers in src/citeable/_parser.py: one
 * BibTeX record turned into a typed entry.
 *
 * The loops of the source (`_extract_entries`, `_extract_value`,
 * `_parse_fields`) and the top-level function are methods proved equal to
 * the functions of module BibScan and to `FromBibtex` below; the pure
 * helpers (author names, keyword-argument builders, the type table) are
 * functions.
 */
module Parser {
  import opened Wrappers
  import opened Text
  import opened Entries
  import opened BibScan

  /** Why a record cannot be read: the source raises ValueError or TypeError for each. */
  datatype ParseError =
      /** No `@type{` marker anywhere in the text. */
    | NoEntryFound
      /** More than one record in the text. */
    | MultipleEntries
      /** The lower-cased type token is not in the type table. */
    | UnsupportedType(entryType: string)
      /** A quoted value without its closing quote. */
    | UnterminatedQuote
      /** `int()` rejected the text of a numeric field. */
    | NotAnInteger(text: string)
      /** The entry class rejected the keyword arguments. */
    | InvalidEntry(error: Error)

  // =====================================================================
  // Author names

  predicate HasComma(s: string) {
    FindChar(s, ',', 0).Some?
  }

  /**
   * `_normalise_author`: a trimmed name with a comma, or with at most one
   * word, is kept; otherwise the last word moves to the front, followed by
   * ", " and the other words joined by single spaces.
   */
  function NormaliseAuthor(name: string): (r: string)
    ensures HasComma(Strip(name)) ==> r == Strip(name)
    ensures !HasComma(Strip(name)) && |Words(Strip(name))| <= 1 ==> r == Strip(name)
    ensures !HasComma(Strip(name)) && |Words(Strip(name))| > 1 ==>
              var words := Words(Strip(name));
              r == words[|words| - 1] + ", " + Join(words[..|words| - 1], " ")
  {
    var n := Strip(name);
    if HasComma(n) then n
    else
      var parts := Words(n);
      if |parts| <= 1 then n else parts[|parts| - 1] + ", " + Join(parts[..|parts| - 1], " ")
  }

  /** A normalised name is trimmed, and it has a comma unless it is at most one word. */
  lemma NormalisedShape(name: string)
    ensures Strip(NormaliseAuthor(name)) == NormaliseAuthor(name)
    ensures HasComma(NormaliseAuthor(name)) || |Words(NormaliseAuthor(name))| <= 1
  {
    var n := Strip(name);
    var r := NormaliseAuthor(name);
    StripIdempotent(name);
    if !HasComma(n) && |Words(n)| > 1 {
      var parts := Words(n);
      var last := parts[|parts| - 1];
      var rest := parts[..|parts| - 1];
      JoinTokensEnds(rest, " ");
      assert r == last + ", " + Join(rest, " ");
      assert r[|last|] == ',';
      assert r[0] == last[0];
      assert r[|r| - 1] == Join(rest, " ")[|Join(rest, " ")| - 1];
      StripUnchanged(r);
    }
  }

  /** Normalising twice is normalising once. */
  lemma NormaliseIdempotent(name: string)
    ensures NormaliseAuthor(NormaliseAuthor(name)) == NormaliseAuthor(name)
  {
    NormalisedShape(name);
  }

  /** `_parse_authors`: one normalised name per `" and "`-separated segment, in order. */
  function ParseAuthors(raw: string): seq<string> {
    var segments := SplitOn(raw, " and ");
    seq(|segments|, i requires 0 <= i < |segments| => NormaliseAuthor(segments[i]))
  }

  /**
   * The names are the segments of the text cut at every `" and "`, left
   * to right, each normalised, in order: any segmentation of that shape
   * gives these names.
   */
  lemma ParseAuthorsSegments(raw: string, segments: seq<string>)
    requires SplitShape(raw, " and ", segments)
    ensures |ParseAuthors(raw)| == |segments| > 0
    ensures forall i :: 0 <= i < |segments| ==> ParseAuthors(raw)[i] == NormaliseAuthor(segments[i])
  {
    SplitOnUnique(raw, " and ", segments);
  }

  /**
   * Names joined with `" and "`, as `_author_str` writes them, read back
   * as the same names when each is already normalised and holds no
   * `" and "`.
   */
  lemma ParseAuthorsOfJoin(names: seq<string>)
    requires |names| > 0
    requires forall i :: 0 <= i < |names| ==> SepFree(names[i], " and ") && NormaliseAuthor(names[i]) == names[i]
    ensures ParseAuthors(Join(names, " and ")) == names
  {
    JoinSplitShape(names, " and ");
    ParseNormalisedSegments(Join(names, " and "), names);
  }

  /** Segments that are already normalised are the names read back. */
  lemma ParseNormalisedSegments(raw: string, segments: seq<string>)
    requires SplitShape(raw, " and ", segments)
    requires forall i :: 0 <= i < |segments| ==> NormaliseAuthor(segments[i]) == segments[i]
    ensures ParseAuthors(raw) == segments
  {
    ParseAuthorsSegments(raw, segments);
  }

  // =====================================================================
  // Keyword arguments

  /** The field names `from_bibtex_string` reads: the common ones and the class's own. */
  function CommonFieldNames(): set<string> {
    {"author", "title", "year", "doi", "url", "note"}
  }

  function OwnFieldNames(t: EntryType): set<string> {
    match t
    case ArticleType => {"journal", "volume", "pages", "article_number", "number"}
    case BookType => {"publisher", "edition", "editor"}
    case InProceedingsType => {"booktitle", "pages", "publisher", "editor"}
    case TechReportType => {"institution", "number"}
    case ThesisType => {"school"}
    case SoftwareType => {"publisher", "version", "license"}
    case MiscType => {}
  }

  /** `kwargs[name] = fields[name]` when the field is present. */
  function CopyField(kw: Kwargs, fields: map<string, string>, name: string): Kwargs {
    if name in fields then kw[name := VStr(fields[name])] else kw
  }

  /** `kwargs[name] = _parse_authors(fields[name])` when the field is present. */
  function AuthorsField(kw: Kwargs, fields: map<string, string>, name: string): Kwargs {
    if name in fields then kw[name := VList(ParseAuthors(fields[name]))] else kw
  }

  /** `kwargs[name] = int(fields[name])` when the field is present; `int()` may fail. */
  function NumberField(kw: Kwargs, fields: map<string, string>, name: string): Result<Kwargs, ParseError> {
    if name in fields then
      match ParseInt(fields[name])
      case None => Failure(NotAnInteger(fields[name]))
      case Some(n) => Success(kw[name := VInt(n)])
    else Success(kw)
  }

  /** `CopyField` for each name in turn. */
  function CopyFields(kw: Kwargs, fields: map<string, string>, names: seq<string>): Kwargs
    decreases |names|
  {
    if names == [] then kw else CopyFields(CopyField(kw, fields, names[0]), fields, names[1..])
  }

  /** `_common_kwargs`: the cite key, always, then the common fields present. */
  function CommonKwargs(fields: map<string, string>, citeKey: string): Result<Kwargs, ParseError> {
    var kw := AuthorsField(map["key" := VStr(citeKey)], fields, "author");
    var kw :- NumberField(CopyField(kw, fields, "title"), fields, "year");
    Success(CopyFields(kw, fields, ["doi", "url", "note"]))
  }

  /** `_article_kwargs`: `volume` and `number` become integers. */
  function ArticleKwargs(fields: map<string, string>): Result<Kwargs, ParseError> {
    var kw :- NumberField(CopyField(map[], fields, "journal"), fields, "volume");
    NumberField(CopyField(CopyField(kw, fields, "pages"), fields, "article_number"), fields, "number")
  }

  /** `_book_kwargs`: `editor` is read as a list of names. */
  function BookKwargs(fields: map<string, string>): Kwargs {
    AuthorsField(CopyField(CopyField(map[], fields, "publisher"), fields, "edition"), fields, "editor")
  }

  /** `_inproceedings_kwargs`. */
  function InProceedingsKwargs(fields: map<string, string>): Kwargs {
    var kw := CopyField(CopyField(map[], fields, "booktitle"), fields, "pages");
    AuthorsField(CopyField(kw, fields, "publisher"), fields, "editor")
  }

  /** `_techreport_kwargs`: `number` stays text. */
  function TechReportKwargs(fields: map<string, string>): Kwargs {
    CopyField(CopyField(map[], fields, "institution"), fields, "number")
  }

  /** `_thesis_kwargs`: the thesis type comes from the record's type token. */
  function ThesisKwargs(fields: map<string, string>, entryType: string): Kwargs {
    CopyField(map[], fields, "school")["thesis_type" := VStr(if entryType == "phdthesis" then "phd" else "masters")]
  }

  /** `_software_kwargs`. */
  function SoftwareKwargs(fields: map<string, string>): Kwargs {
    CopyField(CopyField(CopyField(map[], fields, "publisher"), fields, "version"), fields, "license")
  }

  /** `_TYPE_MAP`: the lower-cased type tokens the parser accepts. */
  function TypeMap(entryType: string): (r: Option<EntryType>)
    ensures r.Some? <==> entryType in {"article", "book", "inproceedings", "techreport", "phdthesis",
                                       "mastersthesis", "software", "misc"}
    ensures r == Some(ThesisType) <==> entryType == "phdthesis" || entryType == "mastersthesis"
  {
    if entryType == "article" then Some(ArticleType)
    else if entryType == "book" then Some(BookType)
    else if entryType == "inproceedings" then Some(InProceedingsType)
    else if entryType == "techreport" then Some(TechReportType)
    else if entryType == "phdthesis" || entryType == "mastersthesis" then Some(ThesisType)
    else if entryType == "software" then Some(SoftwareType)
    else if entryType == "misc" then Some(MiscType)
    else None
  }

  /**
   * The class's own keyword arguments: `_thesis_kwargs` for Thesis, the
   * `_TYPE_KWARGS` builder for the five classes it lists, none for Misc.
   */
  function ClassKwargs(t: EntryType, fields: map<string, string>, entryType: string): Result<Kwargs, ParseError> {
    match t
    case ThesisType => Success(ThesisKwargs(fields, entryType))
    case ArticleType => ArticleKwargs(fields)
    case BookType => Success(BookKwargs(fields))
    case InProceedingsType => Success(InProceedingsKwargs(fields))
    case TechReportType => Success(TechReportKwargs(fields))
    case SoftwareType => Success(SoftwareKwargs(fields))
    case MiscType => Success(map[])
  }

  // =====================================================================
  // from_bibtex_string

  /**
   * `from_bibtex_string`: exactly one record, a supported type, then the
   * fields, the keyword arguments and the class's constructor.
   */
  function FromBibtex(s: string): (r: Result<Entry, ParseError>)
    ensures |Records(s)| == 0 ==> r == Failure(NoEntryFound)
    ensures |Records(s)| > 1 ==> r == Failure(MultipleEntries)
    ensures |Records(s)| == 1 && TypeMap(Lower(Records(s)[0].entryType)).None? ==>
              r == Failure(UnsupportedType(Lower(Records(s)[0].entryType)))
    ensures |Records(s)| == 1 && TypeMap(Lower(Records(s)[0].entryType)).Some? &&
              Fields(Records(s)[0].fieldsBody).None? ==>
              r == Failure(UnterminatedQuote)
  {
    var entries := Records(s);
    if |entries| == 0 then Failure(NoEntryFound)
    else if |entries| > 1 then Failure(MultipleEntries)
    else
      var entryType := Lower(entries[0].entryType);
      match TypeMap(entryType)
      case None => Failure(UnsupportedType(entryType))
      case Some(t) => FromRecord(t, entryType, entries[0])
  }

  /** Text in which the entry start pattern matches nowhere holds no entry. */
  lemma NoMarkerNoEntry(s: string)
    requires forall i :: 0 <= i < |s| ==> EntryStartAt(s, i).None?
    ensures FromBibtex(s) == Failure(NoEntryFound)
  {
    if |EntryStarts(s, 0)| > 0 {
      EntryStartsAreMatches(s, 0, 0);
    }
  }

  /** Text in which the entry start pattern matches at two places is refused as holding several entries. */
  lemma TwoMarkersMultipleEntries(s: string, i: nat, j: nat)
    requires i < |s| && j < |s| && i != j
    requires EntryStartAt(s, i).Some? && EntryStartAt(s, j).Some?
    ensures FromBibtex(s) == Failure(MultipleEntries)
  {
    TwoEntryStarts(s, i, j);
  }

  /** A record of a supported type: its fields, its keyword arguments, the constructor call. */
  function FromRecord(t: EntryType, entryType: string, rec: RawRecord): (r: Result<Entry, ParseError>)
  {
    match Fields(rec.fieldsBody)
    case None => Failure(UnterminatedQuote)
    case Some(fields) =>
      var kw :- RecordKwargs(t, fields, rec.citeKey, entryType);
      match Instantiate(t, kw)
      case Success(e) => Success(e)
      case Failure(err) => Failure(InvalidEntry(err))
  }

  /** The keyword arguments `from_bibtex_string` passes: the common ones updated with the class's own. */
  function RecordKwargs(t: EntryType, fields: map<string, string>, citeKey: string, entryType: string)
    : Result<Kwargs, ParseError>
  {
    var common :- CommonKwargs(fields, citeKey);
    var own :- ClassKwargs(t, fields, entryType);
    Success(common + own)
  }

  // =====================================================================
  // Properties of the keyword arguments

  /** The common builder only sets `key` and the common fields. */
  lemma CommonKwargsKeys(fields: map<string, string>, citeKey: string)
    requires CommonKwargs(fields, citeKey).Success?
    ensures CommonKwargs(fields, citeKey).value.Keys <= CommonParams()
    ensures CommonKwargs(fields, citeKey).value["key"] == VStr(citeKey)
  {
  }

  /** A class's builder only sets parameters of the class's own. */
  lemma ClassKwargsKeys(t: EntryType, fields: map<string, string>, entryType: string)
    requires ClassKwargs(t, fields, entryType).Success?
    ensures ClassKwargs(t, fields, entryType).value.Keys <= OwnParams(t)
  {
  }

  /** The year and the Article volume and number are read with `int()`; a TechReport number stays text. */
  lemma NumericFields(fields: map<string, string>, citeKey: string, entryType: string)
    ensures "year" in fields && ParseInt(fields["year"]).None? ==>
              CommonKwargs(fields, citeKey) == Failure(NotAnInteger(fields["year"]))
    ensures "year" in fields && ParseInt(fields["year"]).Some? && CommonKwargs(fields, citeKey).Success? ==>
              CommonKwargs(fields, citeKey).value["year"] == VInt(ParseInt(fields["year"]).value)
    ensures "volume" in fields && ParseInt(fields["volume"]).None? ==>
              ArticleKwargs(fields) == Failure(NotAnInteger(fields["volume"]))
    ensures ArticleKwargs(fields).Success? && "number" in fields ==>
              ArticleKwargs(fields).value["number"] == VInt(ParseInt(fields["number"]).value)
    ensures "number" in fields ==> TechReportKwargs(fields)["number"] == VStr(fields["number"])
  {
  }

  /** `phdthesis` gives the thesis type "phd", `mastersthesis` gives "masters". */
  lemma ThesisTypeOfToken(fields: map<string, string>)
    ensures ThesisKwargs(fields, "phdthesis")["thesis_type"] == VStr("phd")
    ensures ThesisKwargs(fields, "mastersthesis")["thesis_type"] == VStr("masters")
  {
  }

  /** Two field maps that agree on the names the class reads. */
  predicate AgreeOn(f1: map<string, string>, f2: map<string, string>, names: set<string>) {
    forall n :: n in names ==> (n in f1 <==> n in f2) && (n in f1 ==> f1[n] == f2[n])
  }

  /** Fields no class reads (`month`, `urldate`, ...) leave the common keyword arguments alone. */
  lemma CommonIgnoresOtherFields(f1: map<string, string>, f2: map<string, string>, citeKey: string)
    requires AgreeOn(f1, f2, CommonFieldNames())
    ensures CommonKwargs(f1, citeKey) == CommonKwargs(f2, citeKey)
  {
  }

  /** Fields the class does not read leave its own keyword arguments alone. */
  lemma ClassIgnoresOtherFields(t: EntryType, f1: map<string, string>, f2: map<string, string>, entryType: string)
    requires AgreeOn(f1, f2, OwnFieldNames(t))
    ensures ClassKwargs(t, f1, entryType) == ClassKwargs(t, f2, entryType)
  {
  }

  /** A Misc record receives only the common fields. */
  lemma MiscTakesCommonOnly(fields: map<string, string>, entryType: string)
    ensures ClassKwargs(MiscType, fields, entryType) == Success(map[])
  {
  }

  // =====================================================================
  // Properties of the parsed entry

  /** The Thesis constructor keeps the thesis type it is given. */
  lemma InstantiatedThesisType(kw: Kwargs)
    requires Instantiate(ThesisType, kw).Success?
    requires "thesis_type" in kw && kw["thesis_type"].VStr?
    ensures Instantiate(ThesisType, kw).value.kind.Thesis?
    ensures Instantiate(ThesisType, kw).value.kind.thesisType == kw["thesis_type"].text
  {
  }

  /**
   * The keyword arguments never hold a name the class does not take, and
   * `key` is always the record's cite key.
   */
  lemma RecordKwargsShape(t: EntryType, fields: map<string, string>, citeKey: string, entryType: string)
    requires RecordKwargs(t, fields, citeKey, entryType).Success?
    ensures RecordKwargs(t, fields, citeKey, entryType).value.Keys <= Params(t)
    ensures RecordKwargs(t, fields, citeKey, entryType).value["key"] == VStr(citeKey)
  {
    CommonKwargsKeys(fields, citeKey);
    ClassKwargsKeys(t, fields, entryType);
    assert "key" !in OwnParams(t);
  }

  /** A successful build is the constructor's result on the record's keyword arguments. */
  lemma FromRecordInstantiates(t: EntryType, entryType: string, rec: RawRecord)
    requires FromRecord(t, entryType, rec).Success?
    ensures Fields(rec.fieldsBody).Some?
    ensures RecordKwargs(t, Fields(rec.fieldsBody).value, rec.citeKey, entryType).Success?
    ensures Instantiate(t, RecordKwargs(t, Fields(rec.fieldsBody).value, rec.citeKey, entryType).value) ==
            Success(FromRecord(t, entryType, rec).value)
  {
  }

  /** Whatever the record, a successful build keeps its cite key and the class it was asked for. */
  lemma RecordEntry(t: EntryType, entryType: string, rec: RawRecord)
    requires FromRecord(t, entryType, rec).Success?
    ensures Valid(FromRecord(t, entryType, rec).value)
    ensures TypeOf(FromRecord(t, entryType, rec).value.kind) == t
    ensures FromRecord(t, entryType, rec).value.base.key == rec.citeKey
  {
    FromRecordInstantiates(t, entryType, rec);
    var fields := Fields(rec.fieldsBody).value;
    RecordKwargsShape(t, fields, rec.citeKey, entryType);
  }

  /**
   * A parsed entry is valid, is of the class the lower-cased type token
   * names, and carries the record's cite key verbatim: the parser never
   * generates a key.
   */
  lemma ParsedEntry(s: string)
    requires FromBibtex(s).Success?
    ensures |Records(s)| == 1
    ensures Valid(FromBibtex(s).value)
    ensures TypeMap(Lower(Records(s)[0].entryType)) == Some(TypeOf(FromBibtex(s).value.kind))
    ensures FromBibtex(s).value.base.key == Records(s)[0].citeKey
  {
    var rec := Records(s)[0];
    var entryType := Lower(rec.entryType);
    var t := TypeMap(entryType).value;
    assert FromBibtex(s) == FromRecord(t, entryType, rec);
    RecordEntry(t, entryType, rec);
  }

  /** No keyword argument the parser builds is None. */
  predicate NoneFree(kw: Kwargs) {
    forall n :: n in kw ==> kw[n] != VNone
  }

  /**
   * The keyword argument the parser derives from the text of field `n` for
   * class `t`: author and editor names split and normalised, the year and
   * the Article volume and number read by `int()` (None when it fails),
   * everything else the text as decoded.
   */
  function FieldArg(t: EntryType, n: string, text: string): Option<Value> {
    if n == "author" || n == "editor" then Some(VList(ParseAuthors(text)))
    else if n == "year" || n == "volume" || (n == "number" && t == ArticleType) then
      match ParseInt(text)
      case Some(i) => Some(VInt(i))
      case None => None
    else Some(VStr(text))
  }

  lemma CopyFieldsKeeps(kw: Kwargs, fields: map<string, string>, names: seq<string>, n: string)
    requires n !in names
    ensures n in CopyFields(kw, fields, names) <==> n in kw
    ensures n in kw ==> CopyFields(kw, fields, names)[n] == kw[n]
    decreases |names|
  {
    if names != [] {
      CopyFieldsKeeps(CopyField(kw, fields, names[0]), fields, names[1..], n);
    }
  }

  lemma CopyFieldsSets(kw: Kwargs, fields: map<string, string>, names: seq<string>, i: nat)
    requires i < |names| && names[i] in fields
    requires forall j :: i < j < |names| ==> names[j] != names[i]
    ensures names[i] in CopyFields(kw, fields, names)
    ensures CopyFields(kw, fields, names)[names[i]] == VStr(fields[names[i]])
    decreases |names|
  {
    if i == 0 {
      CopyFieldsKeeps(CopyField(kw, fields, names[0]), fields, names[1..], names[0]);
    } else {
      CopyFieldsSets(CopyField(kw, fields, names[0]), fields, names[1..], i - 1);
    }
  }

  /** Each common field present gives the keyword argument `FieldArg` describes. */
  lemma CommonKwargValue(t: EntryType, fields: map<string, string>, citeKey: string, n: string)
    requires CommonKwargs(fields, citeKey).Success?
    requires n in CommonFieldNames() && n in fields
    ensures n in CommonKwargs(fields, citeKey).value
    ensures Some(CommonKwargs(fields, citeKey).value[n]) == FieldArg(t, n, fields[n])
  {
    var names := ["doi", "url", "note"];
    var kw0 := AuthorsField(map["key" := VStr(citeKey)], fields, "author");
    var kw1 := NumberField(CopyField(kw0, fields, "title"), fields, "year").value;
    assert CommonKwargs(fields, citeKey).value == CopyFields(kw1, fields, names);
    if n in {"author", "title", "year"} {
      CopyFieldsKeeps(kw1, fields, names, n);
    } else {
      var i := if n == "doi" then 0 else if n == "url" then 1 else 2;
      CopyFieldsSets(kw1, fields, names, i);
    }
  }

  /** Each field of the class present gives the keyword argument `FieldArg` describes. */
  lemma ClassKwargValue(t: EntryType, fields: map<string, string>, entryType: string, n: string)
    requires ClassKwargs(t, fields, entryType).Success?
    requires n in OwnFieldNames(t) && n in fields
    ensures n in ClassKwargs(t, fields, entryType).value
    ensures Some(ClassKwargs(t, fields, entryType).value[n]) == FieldArg(t, n, fields[n])
  {
    match t {
      case ArticleType => ArticleKwargValue(fields, n);
      case BookType =>
      case InProceedingsType =>
      case TechReportType =>
      case ThesisType =>
      case SoftwareType =>
      case MiscType =>
    }
  }

  lemma ArticleKwargValue(fields: map<string, string>, n: string)
    requires ArticleKwargs(fields).Success?
    requires n in OwnFieldNames(ArticleType) && n in fields
    ensures n in ArticleKwargs(fields).value
    ensures Some(ArticleKwargs(fields).value[n]) == FieldArg(ArticleType, n, fields[n])
  {
    var kw0 := CopyField(map[], fields, "journal");
    var kw1 := NumberField(kw0, fields, "volume").value;
    var kw2 := CopyField(CopyField(kw1, fields, "pages"), fields, "article_number");
    assert ArticleKwargs(fields) == NumberField(kw2, fields, "number");
    if n == "journal" {
      assert kw1["journal"] == kw0["journal"];
    } else if n == "volume" {
      assert kw2["volume"] == kw1["volume"];
    }
  }

  lemma {:induction false} CopyFieldsNoneFree(kw: Kwargs, fields: map<string, string>, names: seq<string>)
    requires NoneFree(kw)
    ensures NoneFree(CopyFields(kw, fields, names))
    decreases |names|
  {
    if names != [] {
      CopyFieldsNoneFree(CopyField(kw, fields, names[0]), fields, names[1..]);
    }
  }

  /** No keyword argument the parser passes is None. */
  lemma RecordKwargsNoneFree(t: EntryType, fields: map<string, string>, citeKey: string, entryType: string)
    requires RecordKwargs(t, fields, citeKey, entryType).Success?
    ensures NoneFree(RecordKwargs(t, fields, citeKey, entryType).value)
  {
    CommonKwargsNoneFree(fields, citeKey);
    ClassKwargsNoneFree(t, fields, entryType);
    var common := CommonKwargs(fields, citeKey).value;
    var own := ClassKwargs(t, fields, entryType).value;
    assert RecordKwargs(t, fields, citeKey, entryType).value == common + own;
  }

  lemma CommonKwargsNoneFree(fields: map<string, string>, citeKey: string)
    requires CommonKwargs(fields, citeKey).Success?
    ensures NoneFree(CommonKwargs(fields, citeKey).value)
  {
    var kw0 := AuthorsField(map["key" := VStr(citeKey)], fields, "author");
    var kw1 := NumberField(CopyField(kw0, fields, "title"), fields, "year").value;
    CopyFieldsNoneFree(kw1, fields, ["doi", "url", "note"]);
  }

  lemma ClassKwargsNoneFree(t: EntryType, fields: map<string, string>, entryType: string)
    requires ClassKwargs(t, fields, entryType).Success?
    ensures NoneFree(ClassKwargs(t, fields, entryType).value)
  {
  }

  /**
   * Every field of `fields` that class `t` reads is the attribute of that
   * name, with the value `FieldArg` derives from the field's text.
   */
  predicate CarriesFields(e: Entry, fields: map<string, string>) {
    var t := TypeOf(e.kind);
    forall n :: n in fields && n in CommonFieldNames() + OwnFieldNames(t) ==>
      n in Vars(e) && Some(Vars(e)[n]) == FieldArg(t, n, fields[n])
  }

  /**
   * Parse-to-construct parity: every field of the record that the class
   * reads becomes the entry's attribute of that name.
   */
  lemma ParsedValues(s: string)
    requires FromBibtex(s).Success?
    ensures |Records(s)| == 1 && Fields(Records(s)[0].fieldsBody).Some?
    ensures CarriesFields(FromBibtex(s).value, Fields(Records(s)[0].fieldsBody).value)
  {
    ParsedEntry(s);
    var rec := Records(s)[0];
    var entryType := Lower(rec.entryType);
    var e := FromBibtex(s).value;
    var t := TypeOf(e.kind);
    assert FromBibtex(s) == FromRecord(t, entryType, rec);
    FromRecordInstantiates(t, entryType, rec);
    InstantiatedCarries(t, Fields(rec.fieldsBody).value, rec.citeKey, entryType, e);
  }

  /** The entry `cls(**kwargs)` builds from the parser's arguments carries the record's fields. */
  lemma InstantiatedCarries(t: EntryType, fields: map<string, string>, citeKey: string, entryType: string, e: Entry)
    requires RecordKwargs(t, fields, citeKey, entryType).Success?
    requires Instantiate(t, RecordKwargs(t, fields, citeKey, entryType).value) == Success(e)
    ensures CarriesFields(e, fields)
  {
    var kw := RecordKwargs(t, fields, citeKey, entryType).value;
    var common := CommonKwargs(fields, citeKey).value;
    var own := ClassKwargs(t, fields, entryType).value;
    assert kw == common + own;
    assert TypeOf(e.kind) == t;
    RecordKwargsNoneFree(t, fields, citeKey, entryType);
    InstantiateKeepsArguments(t, kw);
    ClassKwargsKeys(t, fields, entryType);
    forall n | n in fields && n in CommonFieldNames() + OwnFieldNames(t)
      ensures n in Vars(e) && Some(Vars(e)[n]) == FieldArg(t, n, fields[n])
    {
      if n in OwnFieldNames(t) {
        ClassKwargValue(t, fields, entryType, n);
        assert kw[n] == own[n];
      } else {
        CommonKwargValue(t, fields, citeKey, n);
        assert n !in own;
        assert kw[n] == common[n];
      }
    }
  }

  /**
   * For an entry that carries a field map: the title is the field's text,
   * the year is its text read by `int()`, the authors are the field's names
   * split and normalised, and a TechReport's number stays text.
   */
  lemma CarriedFields(e: Entry, fields: map<string, string>)
    requires CarriesFields(e, fields)
    ensures "title" in fields ==> e.base.title == fields["title"]
    ensures "year" in fields ==> ParseInt(fields["year"]) == Some(e.base.year)
    ensures "author" in fields ==> e.base.author == ParseAuthors(fields["author"])
    ensures e.kind.TechReport? && "number" in fields ==> e.kind.reportNumber == Some(fields["number"])
  {
    CarriedTitle(e, fields);
    CarriedYear(e, fields);
    CarriedAuthor(e, fields);
    CarriedReportNumber(e, fields);
  }

  lemma CarriedTitle(e: Entry, fields: map<string, string>)
    requires CarriesFields(e, fields)
    ensures "title" in fields ==> e.base.title == fields["title"]
  {
    if "title" in fields {
      var v := CarriedField(e, fields, "title");
      BaseAt(e, "title");
    }
  }

  lemma CarriedYear(e: Entry, fields: map<string, string>)
    requires CarriesFields(e, fields)
    ensures "year" in fields ==> ParseInt(fields["year"]) == Some(e.base.year)
  {
    if "year" in fields {
      var v := CarriedField(e, fields, "year");
      BaseAt(e, "year");
    }
  }

  lemma CarriedAuthor(e: Entry, fields: map<string, string>)
    requires CarriesFields(e, fields)
    ensures "author" in fields ==> e.base.author == ParseAuthors(fields["author"])
  {
    if "author" in fields {
      var v := CarriedField(e, fields, "author");
      BaseAt(e, "author");
    }
  }

  lemma CarriedReportNumber(e: Entry, fields: map<string, string>)
    requires CarriesFields(e, fields)
    ensures e.kind.TechReport? && "number" in fields ==> e.kind.reportNumber == Some(fields["number"])
  {
    if e.kind.TechReport? && "number" in fields {
      var v := CarriedField(e, fields, "number");
      KindAt(e, "number");
    }
  }

  /** The attribute an entry that carries a field map holds for field `n`. */
  lemma CarriedField(e: Entry, fields: map<string, string>, n: string) returns (v: Value)
    requires CarriesFields(e, fields)
    requires n in fields && n in CommonFieldNames() + OwnFieldNames(TypeOf(e.kind))
    ensures n in Vars(e) && v == Vars(e)[n] && Some(v) == FieldArg(TypeOf(e.kind), n, fields[n])
  {
    v := Vars(e)[n];
  }

  /** A parsed entry's title, year, authors and TechReport number come from the record's fields. */
  lemma ParsedFields(s: string)
    requires FromBibtex(s).Success?
    ensures |Records(s)| == 1 && Fields(Records(s)[0].fieldsBody).Some?
    ensures var fields := Fields(Records(s)[0].fieldsBody).value;
            var e := FromBibtex(s).value;
            && ("title" in fields ==> e.base.title == fields["title"])
            && ("year" in fields ==> ParseInt(fields["year"]) == Some(e.base.year))
            && ("author" in fields ==> e.base.author == ParseAuthors(fields["author"]))
            && (e.kind.TechReport? && "number" in fields ==> e.kind.reportNumber == Some(fields["number"]))
  {
    ParsedValues(s);
    CarriedFields(FromBibtex(s).value, Fields(Records(s)[0].fieldsBody).value);
  }

  /** A record of one of the two thesis tokens builds a Thesis of the matching thesis type. */
  lemma ThesisRecord(entryType: string, rec: RawRecord)
    requires entryType in {"phdthesis", "mastersthesis"}
    requires FromRecord(ThesisType, entryType, rec).Success?
    ensures FromRecord(ThesisType, entryType, rec).value.kind.Thesis?
    ensures FromRecord(ThesisType, entryType, rec).value.kind.thesisType ==
              if entryType == "phdthesis" then "phd" else "masters"
  {
    FromRecordInstantiates(ThesisType, entryType, rec);
    var fields := Fields(rec.fieldsBody).value;
    var kw := RecordKwargs(ThesisType, fields, rec.citeKey, entryType).value;
    assert kw["thesis_type"] == ThesisKwargs(fields, entryType)["thesis_type"];
    InstantiatedThesisType(kw);
  }

  /** The type token is matched case-insensitively; the two thesis tokens set the thesis type. */
  lemma ThesisDispatch(s: string)
    requires FromBibtex(s).Success?
    requires Lower(Records(s)[0].entryType) in {"phdthesis", "mastersthesis"}
    ensures FromBibtex(s).value.kind.Thesis?
    ensures FromBibtex(s).value.kind.thesisType ==
              if Lower(Records(s)[0].entryType) == "phdthesis" then "phd" else "masters"
  {
    ParsedEntry(s);
    var rec := Records(s)[0];
    var entryType := Lower(rec.entryType);
    assert FromBibtex(s) == FromRecord(ThesisType, entryType, rec);
    ThesisRecord(entryType, rec);
  }

  // =====================================================================
  // The loops

  /** `_extract_entries`. */
  method ExtractEntries(bibtex: string) returns (results: seq<RawRecord>)
    ensures results == Records(bibtex)
  {
    var matches := EntryStarts(bibtex, 0);
    results := [];
    for i := 0 to |matches|
      invariant results == RecordsOf(bibtex, matches[..i])
    {
      var record := ExtractRecord(bibtex, matches[i]);
      assert matches[..i + 1][..i] == matches[..i];
      results := results + [record];
    }
    assert matches[..|matches|] == matches;
  }

  /** One iteration of `_extract_entries`: the brace-depth walk, the body slice and the key split. */
  method ExtractRecord(bibtex: string, m: EntryStart) returns (record: RawRecord)
    requires m.bodyStart <= |bibtex|
    ensures record == RecordAt(bibtex, m)
  {
    var start := m.bodyStart;
    var pos, _ := WalkBraces(bibtex, start);
    var body := if pos > start then bibtex[start..pos - 1] else "";
    assert body == Body(bibtex, start);
    var citeKey, fieldsBody := SplitCiteKey(body);
    record := RawRecord(m.entryType, citeKey, fieldsBody);
  }

  /** The `while pos < len(bibtex) and depth > 0` loop of `_extract_entries`. */
  method WalkBraces(bibtex: string, start: nat) returns (pos: nat, depth: int)
    requires start <= |bibtex|
    ensures (pos, depth) == Scan(bibtex, start, 1)
  {
    depth := 1;
    pos := start;
    while pos < |bibtex| && depth > 0
      invariant start <= pos <= |bibtex|
      invariant Scan(bibtex, pos, depth) == Scan(bibtex, start, 1)
      decreases |bibtex| - pos
    {
      if bibtex[pos] == '{' {
        depth := depth + 1;
      } else if bibtex[pos] == '}' {
        depth := depth - 1;
      }
      pos := pos + 1;
    }
  }

  /** The cite-key split of `_extract_entries`: at the first comma, or the whole body. */
  method SplitCiteKey(body: string) returns (citeKey: string, fieldsBody: string)
    ensures (citeKey, fieldsBody) == SplitKey(body)
  {
    var commaIdx := FindChar(body, ',', 0);
    if commaIdx.None? {
      citeKey, fieldsBody := Strip(body), "";
    } else {
      citeKey, fieldsBody := Strip(body[..commaIdx.value]), body[commaIdx.value + 1..];
    }
  }

  /** `_extract_value`; `None` is the ValueError of a missing closing quote. */
  method ExtractValue(raw: string) returns (value: Option<string>)
    ensures value == DecodeValue(raw)
  {
    var t := Strip(raw);
    if |t| > 0 && t[0] == '{' {
      var depth := 0;
      for i := 0 to |t|
        invariant i == 0 ==> depth == 0
        invariant i > 0 ==> depth > 0 && Scan(t, i, depth) == Scan(t, 1, 1)
      {
        if t[i] == '{' {
          depth := depth + 1;
        } else if t[i] == '}' {
          depth := depth - 1;
          if depth == 0 {
            return Some(t[1..i]);
          }
        }
      }
      return Some(t);
    } else if |t| > 0 && t[0] == '"' {
      match FindChar(t, '"', 1) {
        case None => return None;
        case Some(end) => return Some(t[1..end]);
      }
    } else {
      return Some(Strip(RStripChar(t, ',')));
    }
  }

  /** `_parse_fields`; `None` when a value cannot be decoded. */
  method ParseFields(body: string) returns (result: Option<map<string, string>>)
    ensures result == Fields(body)
  {
    var matches := FieldStarts(body, 0);
    ghost var values := FieldValues(body, matches);
    var fields: map<string, string> := map[];
    for i := 0 to |matches|
      invariant FieldsUpTo(matches, values, i) == Some(fields)
    {
      var name := Lower(matches[i].name);
      var value := ExtractFieldValue(body, matches, i);
      if value.None? {
        FieldsFailStays(matches, values, i + 1, |matches|);
        return None;
      }
      fields := fields[name := value.value];
    }
    return Some(fields);
  }

  /** One iteration of `_parse_fields`: the value between this field's `=` and the next field. */
  method ExtractFieldValue(body: string, matches: seq<FieldStart>, i: nat) returns (value: Option<string>)
    requires Ordered(matches, 0, |body|) && i < |matches|
    ensures value == FieldValues(body, matches)[i]
  {
    var valStart := matches[i].valueStart;
    var valEnd := if i + 1 < |matches| then matches[i + 1].start else |body|;
    value := ExtractValue(body[valStart..valEnd]);
    assert body[valStart..valEnd] == ValueSpan(body, matches, i);
  }

  // =====================================================================
  // The keyword-argument builders, growing one dict in place

  /** `kwargs[name] = int(fields[name])`; `int()` may fail. */
  method SetNumber(kw: Kwargs, fields: map<string, string>, name: string) returns (r: Result<Kwargs, ParseError>)
    requires name in fields
    ensures r == NumberField(kw, fields, name)
  {
    var n := ParseInt(fields[name]);
    if n.None? {
      return Failure(NotAnInteger(fields[name]));
    }
    return Success(kw[name := VInt(n.value)]);
  }

  /** `_common_kwargs`. */
  method BuildCommonKwargs(fields: map<string, string>, citeKey: string) returns (r: Result<Kwargs, ParseError>)
    ensures r == CommonKwargs(fields, citeKey)
  {
    var kwargs: Kwargs := map["key" := VStr(citeKey)];
    if "author" in fields {
      kwargs := kwargs["author" := VList(ParseAuthors(fields["author"]))];
    }
    if "title" in fields {
      kwargs := kwargs["title" := VStr(fields["title"])];
    }
    if "year" in fields {
      var withYear := SetNumber(kwargs, fields, "year");
      if withYear.Failure? {
        return withYear;
      }
      kwargs := withYear.value;
    }
    ghost var before := kwargs;
    var names := ["doi", "url", "note"];
    for i := 0 to |names|
      invariant CopyFields(before, fields, names) == CopyFields(kwargs, fields, names[i..])
    {
      assert names[i..] == [names[i]] + names[i + 1..];
      if names[i] in fields {
        kwargs := kwargs[names[i] := VStr(fields[names[i]])];
      }
    }
    return Success(kwargs);
  }

  /** `_article_kwargs`. */
  method BuildArticleKwargs(fields: map<string, string>) returns (r: Result<Kwargs, ParseError>)
    ensures r == ArticleKwargs(fields)
  {
    var kwargs: Kwargs := map[];
    if "journal" in fields {
      kwargs := kwargs["journal" := VStr(fields["journal"])];
    }
    if "volume" in fields {
      var withVolume := SetNumber(kwargs, fields, "volume");
      if withVolume.Failure? {
        return withVolume;
      }
      kwargs := withVolume.value;
    }
    if "pages" in fields {
      kwargs := kwargs["pages" := VStr(fields["pages"])];
    }
    if "article_number" in fields {
      kwargs := kwargs["article_number" := VStr(fields["article_number"])];
    }
    if "number" in fields {
      r := SetNumber(kwargs, fields, "number");
    } else {
      r := Success(kwargs);
    }
  }

  /** `_book_kwargs`. */
  method BuildBookKwargs(fields: map<string, string>) returns (kwargs: Kwargs)
    ensures kwargs == BookKwargs(fields)
  {
    kwargs := map[];
    if "publisher" in fields {
      kwargs := kwargs["publisher" := VStr(fields["publisher"])];
    }
    if "edition" in fields {
      kwargs := kwargs["edition" := VStr(fields["edition"])];
    }
    if "editor" in fields {
      kwargs := kwargs["editor" := VList(ParseAuthors(fields["editor"]))];
    }
  }

  /** `_inproceedings_kwargs`. */
  method BuildInProceedingsKwargs(fields: map<string, string>) returns (kwargs: Kwargs)
    ensures kwargs == InProceedingsKwargs(fields)
  {
    kwargs := map[];
    if "booktitle" in fields {
      kwargs := kwargs["booktitle" := VStr(fields["booktitle"])];
    }
    if "pages" in fields {
      kwargs := kwargs["pages" := VStr(fields["pages"])];
    }
    if "publisher" in fields {
      kwargs := kwargs["publisher" := VStr(fields["publisher"])];
    }
    if "editor" in fields {
      kwargs := kwargs["editor" := VList(ParseAuthors(fields["editor"]))];
    }
  }

  /** `_techreport_kwargs`. */
  method BuildTechReportKwargs(fields: map<string, string>) returns (kwargs: Kwargs)
    ensures kwargs == TechReportKwargs(fields)
  {
    kwargs := map[];
    if "institution" in fields {
      kwargs := kwargs["institution" := VStr(fields["institution"])];
    }
    if "number" in fields {
      kwargs := kwargs["number" := VStr(fields["number"])];
    }
  }

  /** `_thesis_kwargs`. */
  method BuildThesisKwargs(fields: map<string, string>, entryType: string) returns (kwargs: Kwargs)
    ensures kwargs == ThesisKwargs(fields, entryType)
  {
    kwargs := map[];
    if "school" in fields {
      kwargs := kwargs["school" := VStr(fields["school"])];
    }
    kwargs := kwargs["thesis_type" := VStr(if entryType == "phdthesis" then "phd" else "masters")];
  }

  /** The `if cls is Thesis ... elif cls in _TYPE_KWARGS` dispatch of `from_bibtex_string`. */
  method BuildClassKwargs(t: EntryType, fields: map<string, string>, entryType: string)
    returns (r: Result<Kwargs, ParseError>)
    ensures r == ClassKwargs(t, fields, entryType)
  {
    match t {
      case ThesisType =>
        var kwargs := BuildThesisKwargs(fields, entryType);
        r := Success(kwargs);
      case ArticleType =>
        r := BuildArticleKwargs(fields);
      case BookType =>
        var kwargs := BuildBookKwargs(fields);
        r := Success(kwargs);
      case InProceedingsType =>
        var kwargs := BuildInProceedingsKwargs(fields);
        r := Success(kwargs);
      case TechReportType =>
        var kwargs := BuildTechReportKwargs(fields);
        r := Success(kwargs);
      case SoftwareType =>
        r := Success(SoftwareKwargs(fields));
      case MiscType =>
        r := Success(map[]);
    }
  }

  /** `from_bibtex_string`. */
  method FromBibtexString(bibtex: string) returns (result: Result<Entry, ParseError>)
    ensures result == FromBibtex(bibtex)
  {
    var entries := ExtractEntries(bibtex);
    if |entries| == 0 {
      return Failure(NoEntryFound);
    }
    if |entries| > 1 {
      return Failure(MultipleEntries);
    }
    var RawRecord(entryTypeRaw, citeKey, body) := entries[0];
    var entryType := Lower(entryTypeRaw);
    var cls := TypeMap(entryType);
    if cls.None? {
      return Failure(UnsupportedType(entryType));
    }
    var fields := ParseFields(body);
    if fields.None? {
      return Failure(UnterminatedQuote);
    }
    var kwargs := BuildCommonKwargs(fields.value, citeKey);
    if kwargs.Failure? {
      return Failure(kwargs.error);
    }
    var own := BuildClassKwargs(cls.value, fields.value, entryType);
    if own.Failure? {
      return Failure(own.error);
    }
    var kw := kwargs.value + own.value;
    match Instantiate(cls.value, kw) {
      case Success(e) => return Success(e);
      case Failure(err) => return Failure(InvalidEntry(err));
    }
  }
}
