/**
 * The citation entry model of src/citeable/_entries.py: seven entry
 * classes sharing the attributes of `CitationBase`, their construction
 * checks, the call `cls(**kwargs)` that both the BibTeX parser and
 * `from_dict` make, the dict form with its `"type"` discriminator,
 * content equality and hashing that ignore `key` and `app`, and `summary`.
 *
 * An entry never changes after construction, so it is a datatype value:
 * `Base` holds the attributes `_init_base` sets, `Kind` the class and the
 * attributes its own `__init__` sets.
 */
module Entries {
  import opened Wrappers
  import opened Text
  import opened Keys

  /** The seven entry classes. */
  datatype EntryType =
    | ArticleType | BookType | InProceedingsType | TechReportType
    | ThesisType | SoftwareType | MiscType

  /** The class name: `type(self).__name__`, also the `"type"` value of the dict form. */
  function TypeName(t: EntryType): string {
    match t
    case ArticleType => "Article"
    case BookType => "Book"
    case InProceedingsType => "InProceedings"
    case TechReportType => "TechReport"
    case ThesisType => "Thesis"
    case SoftwareType => "Software"
    case MiscType => "Misc"
  }

  /** Lookup of a class by name in `_ENTRY_TYPES`. */
  function TypeNamed(name: string): (r: Option<EntryType>)
    ensures r.Some? ==> TypeName(r.value) == name
    ensures r.None? ==> forall t :: TypeName(t) != name
  {
    if name == "Article" then Some(ArticleType)
    else if name == "Book" then Some(BookType)
    else if name == "InProceedings" then Some(InProceedingsType)
    else if name == "TechReport" then Some(TechReportType)
    else if name == "Thesis" then Some(ThesisType)
    else if name == "Software" then Some(SoftwareType)
    else if name == "Misc" then Some(MiscType)
    else None
  }

  /** A value held by an attribute, a keyword argument or a dict entry. */
  datatype Value = VNone | VStr(text: string) | VInt(num: int) | VList(items: seq<string>)

  /** Keyword arguments, and the dict form of an entry. */
  type Kwargs = map<string, Value>

  /** The attributes every entry has (set by `_init_base`). */
  datatype Base = Base(
    author: seq<string>,
    title: string,
    year: int,
    doi: Option<string>,
    url: Option<string>,
    note: Option<string>,
    key: string,
    app: Option<string>)

  /**
   * The class of an entry with the attributes its own `__init__` sets.
   * Attribute names are the source's except where two classes give one
   * name two types: Book's required `publisher` against the optional
   * `publisher` of InProceedings and Software, and Article's integer
   * `number` against TechReport's text `number`.
   */
  datatype Kind =
    | Article(journal: string, volume: int, pages: Option<string>,
              articleNumber: Option<string>, number: Option<int>)
    | Book(publisher: string, edition: Option<string>, editor: Option<seq<string>>)
    | InProceedings(booktitle: string, pages: Option<string>,
                    proceedingsPublisher: Option<string>, editor: Option<seq<string>>)
    | TechReport(institution: string, reportNumber: Option<string>)
    | Thesis(school: string, thesisType: string)
    | Software(softwarePublisher: Option<string>, version: Option<string>, license: Option<string>)
    | Misc

  datatype Entry = Entry(base: Base, kind: Kind)

  function TypeOf(k: Kind): EntryType {
    match k
    case Article(_, _, _, _, _) => ArticleType
    case Book(_, _, _) => BookType
    case InProceedings(_, _, _, _) => InProceedingsType
    case TechReport(_, _) => TechReportType
    case Thesis(_, _) => ThesisType
    case Software(_, _, _) => SoftwareType
    case Misc => MiscType
  }

  /** Why constructing or reconstructing an entry fails. */
  datatype Error =
      /** `require_field` rejected a required argument of a class. */
    | FieldRequired(field: string, typeName: string)
      /** `require_non_empty_authors` rejected the author list. */
    | AuthorsRequired(typeName: string)
      /** An Article with neither `pages` nor `article_number`. */
    | PagesOrArticleNumberRequired
      /** A Thesis whose `thesis_type` is neither "phd" nor "masters". */
    | InvalidThesisType(got: string)
      /** `cls(**kwargs)` with keywords the class does not take (a TypeError). */
    | UnexpectedArguments(names: set<string>)
      /** `cls(**kwargs)` without some required positional arguments (a TypeError). */
    | MissingArguments(names: set<string>)
      /** A keyword argument whose value does not have the attribute's type. */
    | WrongValueType(name: string)
      /** `from_dict` on a dict without a `"type"`, or with `"type"` None. */
    | MissingTypeKey
      /** `from_dict` on a dict whose `"type"` names no class. */
    | UnknownType(value: Value)

  /** The thesis kinds a Thesis accepts. */
  predicate IsThesisType(s: string) {
    s == "phd" || s == "masters"
  }

  /** What every successfully constructed entry satisfies. */
  predicate Valid(e: Entry) {
    && |e.base.author| > 0
    && match e.kind
       case Article(journal, _, pages, articleNumber, _) =>
         journal != "" && (pages.Some? || articleNumber.Some?)
       case Book(publisher, _, _) => publisher != ""
       case InProceedings(booktitle, _, _, _) => booktitle != ""
       case TechReport(institution, _) => institution != ""
       case Thesis(school, thesisType) => school != "" && IsThesisType(thesisType)
       case Software(_, _, _) => true
       case Misc => true
  }

  // =====================================================================
  // Construction: `_init_base` and the seven `__init__` methods

  /** The keyword-only arguments every class takes. */
  datatype CommonKeywords = CommonKeywords(
    doi: Option<string>,
    url: Option<string>,
    note: Option<string>,
    key: Option<string>,
    app: Option<string>)

  /**
   * `_init_base`: checks the author list, stores the common attributes,
   * and takes the key as given or, when none is given, generates it.
   */
  function InitBase(typeName: string, author: Option<seq<string>>, title: string, year: int,
                    kw: CommonKeywords): (r: Result<Base, Error>)
    ensures r.Success? <==> AuthorsGiven(author)
    ensures r.Failure? ==> r.error == AuthorsRequired(typeName)
    ensures r.Success? ==> r.value.author == author.value && r.value.title == title && r.value.year == year
    ensures r.Success? ==> r.value.doi == kw.doi && r.value.url == kw.url && r.value.note == kw.note
    ensures r.Success? ==> r.value.app == kw.app
    ensures r.Success? && kw.key.Some? ==> r.value.key == kw.key.value
    ensures r.Success? && kw.key.None? ==> r.value.key == GenerateKey(author.value, year)
  {
    if !AuthorsGiven(author) then Failure(AuthorsRequired(typeName))
    else
      var key := if kw.key.Some? then kw.key.value else GenerateKey(author.value, year);
      Success(Base(author.value, title, year, kw.doi, kw.url, kw.note, key, kw.app))
  }

  /** `Article.__init__`. */
  function NewArticle(author: Option<seq<string>>, title: string, year: int,
                      journal: Option<string>, volume: Option<int>, pages: Option<string>,
                      articleNumber: Option<string>, number: Option<int>,
                      kw: CommonKeywords): (r: Result<Entry, Error>)
    ensures !TextGiven(journal) ==> r == Failure(FieldRequired("journal", "Article"))
    ensures TextGiven(journal) && !NumberGiven(volume) ==> r == Failure(FieldRequired("volume", "Article"))
    ensures TextGiven(journal) && NumberGiven(volume) && pages.None? && articleNumber.None? ==>
              r == Failure(PagesOrArticleNumberRequired)
    ensures r.Success? <==>
              TextGiven(journal) && NumberGiven(volume) && (pages.Some? || articleNumber.Some?) && AuthorsGiven(author)
    ensures r.Success? ==> Valid(r.value) && Success(r.value.base) == InitBase("Article", author, title, year, kw)
    ensures r.Success? ==> r.value.kind == Article(journal.value, volume.value, pages, articleNumber, number)
  {
    if !TextGiven(journal) then Failure(FieldRequired("journal", "Article"))
    else if !NumberGiven(volume) then Failure(FieldRequired("volume", "Article"))
    else if pages.None? && articleNumber.None? then Failure(PagesOrArticleNumberRequired)
    else
      var base :- InitBase("Article", author, title, year, kw);
      Success(Entry(base, Article(journal.value, volume.value, pages, articleNumber, number)))
  }

  /** `Book.__init__`. */
  function NewBook(author: Option<seq<string>>, title: string, year: int,
                   publisher: Option<string>, edition: Option<string>, editor: Option<seq<string>>,
                   kw: CommonKeywords): (r: Result<Entry, Error>)
    ensures !TextGiven(publisher) ==> r == Failure(FieldRequired("publisher", "Book"))
    ensures r.Success? <==> TextGiven(publisher) && AuthorsGiven(author)
    ensures r.Success? ==> Valid(r.value) && Success(r.value.base) == InitBase("Book", author, title, year, kw)
    ensures r.Success? ==> r.value.kind == Book(publisher.value, edition, editor)
  {
    if !TextGiven(publisher) then Failure(FieldRequired("publisher", "Book"))
    else
      var base :- InitBase("Book", author, title, year, kw);
      Success(Entry(base, Book(publisher.value, edition, editor)))
  }

  /** `InProceedings.__init__`. */
  function NewInProceedings(author: Option<seq<string>>, title: string, year: int,
                            booktitle: Option<string>, pages: Option<string>,
                            publisher: Option<string>, editor: Option<seq<string>>,
                            kw: CommonKeywords): (r: Result<Entry, Error>)
    ensures !TextGiven(booktitle) ==> r == Failure(FieldRequired("booktitle", "InProceedings"))
    ensures r.Success? <==> TextGiven(booktitle) && AuthorsGiven(author)
    ensures r.Success? ==> Valid(r.value) && Success(r.value.base) == InitBase("InProceedings", author, title, year, kw)
    ensures r.Success? ==> r.value.kind == InProceedings(booktitle.value, pages, publisher, editor)
  {
    if !TextGiven(booktitle) then Failure(FieldRequired("booktitle", "InProceedings"))
    else
      var base :- InitBase("InProceedings", author, title, year, kw);
      Success(Entry(base, InProceedings(booktitle.value, pages, publisher, editor)))
  }

  /** `TechReport.__init__`. */
  function NewTechReport(author: Option<seq<string>>, title: string, year: int,
                         institution: Option<string>, number: Option<string>,
                         kw: CommonKeywords): (r: Result<Entry, Error>)
    ensures !TextGiven(institution) ==> r == Failure(FieldRequired("institution", "TechReport"))
    ensures r.Success? <==> TextGiven(institution) && AuthorsGiven(author)
    ensures r.Success? ==> Valid(r.value) && Success(r.value.base) == InitBase("TechReport", author, title, year, kw)
    ensures r.Success? ==> r.value.kind == TechReport(institution.value, number)
  {
    if !TextGiven(institution) then Failure(FieldRequired("institution", "TechReport"))
    else
      var base :- InitBase("TechReport", author, title, year, kw);
      Success(Entry(base, TechReport(institution.value, number)))
  }

  /** `Thesis.__init__`. */
  function NewThesis(author: Option<seq<string>>, title: string, year: int,
                     school: Option<string>, thesisType: Option<string>,
                     kw: CommonKeywords): (r: Result<Entry, Error>)
    ensures !TextGiven(school) ==> r == Failure(FieldRequired("school", "Thesis"))
    ensures TextGiven(school) && !TextGiven(thesisType) ==> r == Failure(FieldRequired("thesis_type", "Thesis"))
    ensures TextGiven(school) && TextGiven(thesisType) && !IsThesisType(thesisType.value) ==>
              r == Failure(InvalidThesisType(thesisType.value))
    ensures r.Success? <==>
              TextGiven(school) && thesisType.Some? && IsThesisType(thesisType.value) && AuthorsGiven(author)
    ensures r.Success? ==> Valid(r.value) && Success(r.value.base) == InitBase("Thesis", author, title, year, kw)
    ensures r.Success? ==> r.value.kind == Thesis(school.value, thesisType.value)
  {
    if !TextGiven(school) then Failure(FieldRequired("school", "Thesis"))
    else if !TextGiven(thesisType) then Failure(FieldRequired("thesis_type", "Thesis"))
    else if !IsThesisType(thesisType.value) then Failure(InvalidThesisType(thesisType.value))
    else
      var base :- InitBase("Thesis", author, title, year, kw);
      Success(Entry(base, Thesis(school.value, thesisType.value)))
  }

  /** `Software.__init__`: no checks of its own. */
  function NewSoftware(author: Option<seq<string>>, title: string, year: int,
                       publisher: Option<string>, version: Option<string>, license: Option<string>,
                       kw: CommonKeywords): (r: Result<Entry, Error>)
    ensures r.Success? <==> AuthorsGiven(author)
    ensures r.Success? ==> Valid(r.value) && Success(r.value.base) == InitBase("Software", author, title, year, kw)
    ensures r.Success? ==> r.value.kind == Software(publisher, version, license)
  {
    var base :- InitBase("Software", author, title, year, kw);
    Success(Entry(base, Software(publisher, version, license)))
  }

  /** `Misc.__init__`: no checks of its own. */
  function NewMisc(author: Option<seq<string>>, title: string, year: int,
                   kw: CommonKeywords): (r: Result<Entry, Error>)
    ensures r.Success? <==> AuthorsGiven(author)
    ensures r.Success? ==> Valid(r.value) && Success(r.value.base) == InitBase("Misc", author, title, year, kw)
    ensures r.Success? ==> r.value.kind == Misc
  {
    var base :- InitBase("Misc", author, title, year, kw);
    Success(Entry(base, Misc))
  }

  // =====================================================================
  // `cls(**kwargs)`: binding keyword arguments to a constructor

  /** The parameters of `_init_base` that every class's `__init__` takes. */
  function CommonParams(): set<string> {
    {"author", "title", "year", "doi", "url", "note", "key", "app"}
  }

  /** The parameters a class's `__init__` takes besides the common ones. */
  function OwnParams(t: EntryType): set<string> {
    match t
    case ArticleType => {"journal", "volume", "pages", "article_number", "number"}
    case BookType => {"publisher", "edition", "editor"}
    case InProceedingsType => {"booktitle", "pages", "publisher", "editor"}
    case TechReportType => {"institution", "number"}
    case ThesisType => {"school", "thesis_type"}
    case SoftwareType => {"publisher", "version", "license"}
    case MiscType => {}
  }

  function Params(t: EntryType): set<string> {
    CommonParams() + OwnParams(t)
  }

  /** The parameters without a default: they must be passed. */
  function Positional(t: EntryType): set<string> {
    {"author", "title", "year"} +
    match t
    case ArticleType => {"journal", "volume"}
    case BookType => {"publisher"}
    case InProceedingsType => {"booktitle"}
    case TechReportType => {"institution"}
    case ThesisType => {"school", "thesis_type"}
    case SoftwareType => {}
    case MiscType => {}
  }

  // What an argument decodes to, None when it is absent or of another type.

  function TextIn(kw: Kwargs, name: string): Option<string> {
    if name in kw && kw[name].VStr? then Some(kw[name].text) else None
  }

  function NumberIn(kw: Kwargs, name: string): Option<int> {
    if name in kw && kw[name].VInt? then Some(kw[name].num) else None
  }

  function ListIn(kw: Kwargs, name: string): Option<seq<string>> {
    if name in kw && kw[name].VList? then Some(kw[name].items) else None
  }

  /** The value a parameter receives: the argument passed, or None when it is left out. */
  function Arg(kw: Kwargs, name: string): Value {
    if name in kw then kw[name] else VNone
  }

  /**
   * The type parameter `name` of class `t` holds: a text title, an integer
   * year, author and editor lists, an integer volume and Article number,
   * text for everything else; all but title and year may be None.
   */
  predicate Typed(t: EntryType, name: string, v: Value) {
    if name == "title" then v.VStr?
    else if name == "year" then v.VInt?
    else if name == "author" || name == "editor" then v.VList? || v == VNone
    else if name == "volume" || (name == "number" && t == ArticleType) then v.VInt? || v == VNone
    else v.VStr? || v == VNone
  }

  /** Keyword arguments that bind the parameters of class `t`, each with a value of its type. */
  predicate Binds(t: EntryType, kw: Kwargs) {
    && kw.Keys <= Params(t)
    && Positional(t) <= kw.Keys
    && forall n :: n in kw ==> Typed(t, n, kw[n])
  }

  function TextArg(kw: Kwargs, name: string): (r: Result<string, Error>)
    requires name in kw
    ensures r.Success? <==> kw[name].VStr?
    ensures r.Success? ==> Some(r.value) == TextIn(kw, name)
    ensures r.Failure? ==> r.error == WrongValueType(name)
  {
    if kw[name].VStr? then Success(kw[name].text) else Failure(WrongValueType(name))
  }

  function NumberArg(kw: Kwargs, name: string): (r: Result<int, Error>)
    requires name in kw
    ensures r.Success? <==> kw[name].VInt?
    ensures r.Success? ==> Some(r.value) == NumberIn(kw, name)
    ensures r.Failure? ==> r.error == WrongValueType(name)
  {
    if kw[name].VInt? then Success(kw[name].num) else Failure(WrongValueType(name))
  }

  /** An argument that may be absent or None. */
  function OptTextArg(kw: Kwargs, name: string): (r: Result<Option<string>, Error>)
    ensures r.Success? <==> Arg(kw, name).VStr? || Arg(kw, name) == VNone
    ensures r.Success? ==> r.value == TextIn(kw, name)
    ensures r.Failure? ==> r.error == WrongValueType(name)
  {
    if name !in kw || kw[name] == VNone then Success(None)
    else if kw[name].VStr? then Success(Some(kw[name].text))
    else Failure(WrongValueType(name))
  }

  function OptNumberArg(kw: Kwargs, name: string): (r: Result<Option<int>, Error>)
    ensures r.Success? <==> Arg(kw, name).VInt? || Arg(kw, name) == VNone
    ensures r.Success? ==> r.value == NumberIn(kw, name)
    ensures r.Failure? ==> r.error == WrongValueType(name)
  {
    if name !in kw || kw[name] == VNone then Success(None)
    else if kw[name].VInt? then Success(Some(kw[name].num))
    else Failure(WrongValueType(name))
  }

  function OptListArg(kw: Kwargs, name: string): (r: Result<Option<seq<string>>, Error>)
    ensures r.Success? <==> Arg(kw, name).VList? || Arg(kw, name) == VNone
    ensures r.Success? ==> r.value == ListIn(kw, name)
    ensures r.Failure? ==> r.error == WrongValueType(name)
  {
    if name !in kw || kw[name] == VNone then Success(None)
    else if kw[name].VList? then Success(Some(kw[name].items))
    else Failure(WrongValueType(name))
  }

  /** The common keyword arguments decoded. */
  function KeywordsIn(kw: Kwargs): CommonKeywords {
    CommonKeywords(TextIn(kw, "doi"), TextIn(kw, "url"), TextIn(kw, "note"), TextIn(kw, "key"), TextIn(kw, "app"))
  }

  function CommonKeywordArgs(kw: Kwargs): (r: Result<CommonKeywords, Error>)
    ensures r.Success? <==> forall n :: n in {"doi", "url", "note", "key", "app"} ==> Arg(kw, n).VStr? || Arg(kw, n) == VNone
    ensures r.Success? ==> r.value == KeywordsIn(kw)
    ensures r.Failure? ==> r.error.WrongValueType? && r.error.name in {"doi", "url", "note", "key", "app"} &&
                           !(Arg(kw, r.error.name).VStr? || Arg(kw, r.error.name) == VNone)
  {
    var doi :- OptTextArg(kw, "doi");
    var url :- OptTextArg(kw, "url");
    var note :- OptTextArg(kw, "note");
    var key :- OptTextArg(kw, "key");
    var app :- OptTextArg(kw, "app");
    Success(CommonKeywords(doi, url, note, key, app))
  }

  predicate TextOrNone(v: Value) {
    v.VStr? || v == VNone
  }

  /** Each of the class's own arguments, absent or passed, has the type of its parameter. */
  predicate OwnTyped(t: EntryType, kw: Kwargs) {
    match t
    case ArticleType =>
      && TextOrNone(Arg(kw, "journal")) && (Arg(kw, "volume").VInt? || Arg(kw, "volume") == VNone)
      && TextOrNone(Arg(kw, "pages")) && TextOrNone(Arg(kw, "article_number"))
      && (Arg(kw, "number").VInt? || Arg(kw, "number") == VNone)
    case BookType =>
      TextOrNone(Arg(kw, "publisher")) && TextOrNone(Arg(kw, "edition"))
      && (Arg(kw, "editor").VList? || Arg(kw, "editor") == VNone)
    case InProceedingsType =>
      && TextOrNone(Arg(kw, "booktitle")) && TextOrNone(Arg(kw, "pages")) && TextOrNone(Arg(kw, "publisher"))
      && (Arg(kw, "editor").VList? || Arg(kw, "editor") == VNone)
    case TechReportType => TextOrNone(Arg(kw, "institution")) && TextOrNone(Arg(kw, "number"))
    case ThesisType => TextOrNone(Arg(kw, "school")) && TextOrNone(Arg(kw, "thesis_type"))
    case SoftwareType =>
      TextOrNone(Arg(kw, "publisher")) && TextOrNone(Arg(kw, "version")) && TextOrNone(Arg(kw, "license"))
    case MiscType => true
  }

  /** Arguments of the right types for the common parameters and the class's own bind with their types. */
  lemma TypedArguments(t: EntryType, kw: Kwargs)
    requires kw.Keys <= Params(t) && OwnTyped(t, kw)
    requires "title" in kw && kw["title"].VStr? && "year" in kw && kw["year"].VInt?
    requires Arg(kw, "author").VList? || Arg(kw, "author") == VNone
    requires forall n :: n in {"doi", "url", "note", "key", "app"} ==> TextOrNone(Arg(kw, n))
    ensures forall n :: n in kw ==> Typed(t, n, kw[n])
  {
    forall n | n in kw
      ensures Typed(t, n, kw[n])
    {
      assert Arg(kw, n) == kw[n];
    }
  }

  /**
   * `cls(**kwargs)`: Python first rejects keywords the class does not take,
   * then reports every required positional argument that is missing; only
   * then does the class's `__init__` run its own checks.
   */
  function Instantiate(t: EntryType, kw: Kwargs): (r: Result<Entry, Error>)
    ensures kw.Keys - Params(t) != {} ==> r == Failure(UnexpectedArguments(kw.Keys - Params(t)))
    ensures kw.Keys <= Params(t) && Positional(t) - kw.Keys != {} ==>
              r == Failure(MissingArguments(Positional(t) - kw.Keys))
    ensures r.Success? ==> Valid(r.value) && TypeOf(r.value.kind) == t
    ensures r.Success? ==> Binds(t, kw)
    ensures r.Success? && "key" in kw && kw["key"].VStr? ==> r.value.base.key == kw["key"].text
  {
    var unexpected := kw.Keys - Params(t);
    var missing := Positional(t) - kw.Keys;
    if unexpected != {} then Failure(UnexpectedArguments(unexpected))
    else if missing != {} then Failure(MissingArguments(missing))
    else
      assert "author" in kw && "title" in kw && "year" in kw;
      var author :- OptListArg(kw, "author");
      var title :- TextArg(kw, "title");
      var year :- NumberArg(kw, "year");
      var common :- CommonKeywordArgs(kw);
      var r := Construct(t, kw, author, title, year, common);
      if r.Success? then
        TypedArguments(t, kw);
        r
      else r
  }

  /**
   * The class's own keyword arguments decoded, then its `__init__` called
   * with them and the arguments every class takes.
   */
  function Construct(t: EntryType, kw: Kwargs, author: Option<seq<string>>, title: string, year: int,
                     common: CommonKeywords): (r: Result<Entry, Error>)
    ensures r.Success? ==> Valid(r.value) && TypeOf(r.value.kind) == t
    ensures r.Success? ==> Success(r.value.base) == InitBase(TypeName(t), author, title, year, common)
    ensures r.Success? ==> OwnTyped(t, kw)
  {
    match t
    case ArticleType =>
      var journal :- OptTextArg(kw, "journal");
      var volume :- OptNumberArg(kw, "volume");
      var pages :- OptTextArg(kw, "pages");
      var articleNumber :- OptTextArg(kw, "article_number");
      var number :- OptNumberArg(kw, "number");
      NewArticle(author, title, year, journal, volume, pages, articleNumber, number, common)
    case BookType =>
      var publisher :- OptTextArg(kw, "publisher");
      var edition :- OptTextArg(kw, "edition");
      var editor :- OptListArg(kw, "editor");
      NewBook(author, title, year, publisher, edition, editor, common)
    case InProceedingsType =>
      var booktitle :- OptTextArg(kw, "booktitle");
      var pages :- OptTextArg(kw, "pages");
      var publisher :- OptTextArg(kw, "publisher");
      var editor :- OptListArg(kw, "editor");
      NewInProceedings(author, title, year, booktitle, pages, publisher, editor, common)
    case TechReportType =>
      var institution :- OptTextArg(kw, "institution");
      var number :- OptTextArg(kw, "number");
      NewTechReport(author, title, year, institution, number, common)
    case ThesisType =>
      var school :- OptTextArg(kw, "school");
      var thesisType :- OptTextArg(kw, "thesis_type");
      NewThesis(author, title, year, school, thesisType, common)
    case SoftwareType =>
      var publisher :- OptTextArg(kw, "publisher");
      var version :- OptTextArg(kw, "version");
      var license :- OptTextArg(kw, "license");
      NewSoftware(author, title, year, publisher, version, license, common)
    case MiscType =>
      NewMisc(author, title, year, common)
  }


  // `cls(**kwargs)` with arguments that bind the class's parameters calls
  // its `__init__` with the decoded arguments: one lemma per class.

  /** A bound optional text argument decodes to its value, or None when absent or None. */
  lemma BoundText(t: EntryType, kw: Kwargs, n: string)
    requires Binds(t, kw)
    requires n !in {"title", "year", "author", "editor", "volume"} && !(n == "number" && t == ArticleType)
    ensures OptTextArg(kw, n) == Success(TextIn(kw, n))
  {
    if n in kw {
      assert Typed(t, n, kw[n]);
    }
  }

  /** A bound optional integer argument decodes to its value, or None when absent or None. */
  lemma BoundNumber(t: EntryType, kw: Kwargs, n: string)
    requires Binds(t, kw)
    requires n == "volume" || (n == "number" && t == ArticleType)
    ensures OptNumberArg(kw, n) == Success(NumberIn(kw, n))
  {
    if n in kw {
      assert Typed(t, n, kw[n]);
    }
  }

  /** A bound optional list argument decodes to its value, or None when absent or None. */
  lemma BoundList(t: EntryType, kw: Kwargs, n: string)
    requires Binds(t, kw)
    requires n == "author" || n == "editor"
    ensures OptListArg(kw, n) == Success(ListIn(kw, n))
  {
    if n in kw {
      assert Typed(t, n, kw[n]);
    }
  }

  /** Bound arguments pass the binding step and reach the class's constructor. */
  lemma InstantiateConstructs(t: EntryType, kw: Kwargs)
    requires Binds(t, kw)
    ensures TextIn(kw, "title").Some? && NumberIn(kw, "year").Some?
    ensures Instantiate(t, kw) ==
              Construct(t, kw, ListIn(kw, "author"), TextIn(kw, "title").value, NumberIn(kw, "year").value,
                        KeywordsIn(kw))
  {
    assert "title" in kw && "year" in kw;
    assert Typed(t, "title", kw["title"]) && Typed(t, "year", kw["year"]);
    BoundList(t, kw, "author");
    BoundText(t, kw, "doi");
    BoundText(t, kw, "url");
    BoundText(t, kw, "note");
    BoundText(t, kw, "key");
    BoundText(t, kw, "app");
  }

  lemma ArticleInstantiate(kw: Kwargs)
    requires Binds(ArticleType, kw)
    ensures TextIn(kw, "title").Some? && NumberIn(kw, "year").Some?
    ensures Instantiate(ArticleType, kw) ==
              NewArticle(ListIn(kw, "author"), TextIn(kw, "title").value, NumberIn(kw, "year").value,
                         TextIn(kw, "journal"), NumberIn(kw, "volume"), TextIn(kw, "pages"),
                         TextIn(kw, "article_number"), NumberIn(kw, "number"), KeywordsIn(kw))
  {
    InstantiateConstructs(ArticleType, kw);
    BoundText(ArticleType, kw, "journal");
    BoundNumber(ArticleType, kw, "volume");
    BoundText(ArticleType, kw, "pages");
    BoundText(ArticleType, kw, "article_number");
    BoundNumber(ArticleType, kw, "number");
  }

  lemma BookInstantiate(kw: Kwargs)
    requires Binds(BookType, kw)
    ensures TextIn(kw, "title").Some? && NumberIn(kw, "year").Some?
    ensures Instantiate(BookType, kw) ==
              NewBook(ListIn(kw, "author"), TextIn(kw, "title").value, NumberIn(kw, "year").value,
                      TextIn(kw, "publisher"), TextIn(kw, "edition"), ListIn(kw, "editor"), KeywordsIn(kw))
  {
    InstantiateConstructs(BookType, kw);
    BoundText(BookType, kw, "publisher");
    BoundText(BookType, kw, "edition");
    BoundList(BookType, kw, "editor");
  }

  lemma InProceedingsInstantiate(kw: Kwargs)
    requires Binds(InProceedingsType, kw)
    ensures TextIn(kw, "title").Some? && NumberIn(kw, "year").Some?
    ensures Instantiate(InProceedingsType, kw) ==
              NewInProceedings(ListIn(kw, "author"), TextIn(kw, "title").value, NumberIn(kw, "year").value,
                               TextIn(kw, "booktitle"), TextIn(kw, "pages"), TextIn(kw, "publisher"),
                               ListIn(kw, "editor"), KeywordsIn(kw))
  {
    InstantiateConstructs(InProceedingsType, kw);
    BoundText(InProceedingsType, kw, "booktitle");
    BoundText(InProceedingsType, kw, "pages");
    BoundText(InProceedingsType, kw, "publisher");
    BoundList(InProceedingsType, kw, "editor");
  }

  lemma TechReportInstantiate(kw: Kwargs)
    requires Binds(TechReportType, kw)
    ensures TextIn(kw, "title").Some? && NumberIn(kw, "year").Some?
    ensures Instantiate(TechReportType, kw) ==
              NewTechReport(ListIn(kw, "author"), TextIn(kw, "title").value, NumberIn(kw, "year").value,
                            TextIn(kw, "institution"), TextIn(kw, "number"), KeywordsIn(kw))
  {
    InstantiateConstructs(TechReportType, kw);
    BoundText(TechReportType, kw, "institution");
    BoundText(TechReportType, kw, "number");
  }

  lemma ThesisInstantiate(kw: Kwargs)
    requires Binds(ThesisType, kw)
    ensures TextIn(kw, "title").Some? && NumberIn(kw, "year").Some?
    ensures Instantiate(ThesisType, kw) ==
              NewThesis(ListIn(kw, "author"), TextIn(kw, "title").value, NumberIn(kw, "year").value,
                        TextIn(kw, "school"), TextIn(kw, "thesis_type"), KeywordsIn(kw))
  {
    InstantiateConstructs(ThesisType, kw);
    BoundText(ThesisType, kw, "school");
    BoundText(ThesisType, kw, "thesis_type");
  }

  lemma SoftwareInstantiate(kw: Kwargs)
    requires Binds(SoftwareType, kw)
    ensures TextIn(kw, "title").Some? && NumberIn(kw, "year").Some?
    ensures Instantiate(SoftwareType, kw) ==
              NewSoftware(ListIn(kw, "author"), TextIn(kw, "title").value, NumberIn(kw, "year").value,
                          TextIn(kw, "publisher"), TextIn(kw, "version"), TextIn(kw, "license"), KeywordsIn(kw))
  {
    InstantiateConstructs(SoftwareType, kw);
    BoundText(SoftwareType, kw, "publisher");
    BoundText(SoftwareType, kw, "version");
    BoundText(SoftwareType, kw, "license");
  }

  lemma MiscInstantiate(kw: Kwargs)
    requires Binds(MiscType, kw)
    ensures TextIn(kw, "title").Some? && NumberIn(kw, "year").Some?
    ensures Instantiate(MiscType, kw) ==
              NewMisc(ListIn(kw, "author"), TextIn(kw, "title").value, NumberIn(kw, "year").value, KeywordsIn(kw))
  {
    InstantiateConstructs(MiscType, kw);
  }

  /** An argument passed with a value of its type is stored as the attribute of that name: the common ones. */
  lemma BaseKeepsArguments(t: EntryType, kw: Kwargs, b: Base)
    requires Binds(t, kw) && TextIn(kw, "title").Some? && NumberIn(kw, "year").Some?
    requires Success(b) == InitBase(TypeName(t), ListIn(kw, "author"), TextIn(kw, "title").value,
                                    NumberIn(kw, "year").value, KeywordsIn(kw))
    ensures forall n :: n in CommonParams() && n in kw && kw[n] != VNone ==> BaseVars(b)[n] == kw[n]
  {
    forall n | n in CommonParams() && n in kw && kw[n] != VNone
      ensures BaseVars(b)[n] == kw[n]
    {
      assert Typed(t, n, kw[n]);
      BaseKeepsArgument(t, kw, b, n);
    }
  }

  lemma BaseKeepsArgument(t: EntryType, kw: Kwargs, b: Base, n: string)
    requires TextIn(kw, "title").Some? && NumberIn(kw, "year").Some?
    requires Success(b) == InitBase(TypeName(t), ListIn(kw, "author"), TextIn(kw, "title").value,
                                    NumberIn(kw, "year").value, KeywordsIn(kw))
    requires n in CommonParams() && n in kw && kw[n] != VNone && Typed(t, n, kw[n])
    ensures BaseVars(b)[n] == kw[n]
  {
    var v := BaseVars(b);
    if n == "author" {
      assert v[n] == VList(b.author);
    } else if n == "title" {
      assert v[n] == VStr(b.title);
    } else if n == "year" {
      assert v[n] == VInt(b.year);
    } else if n == "key" {
      assert KeywordsIn(kw).key == Some(kw[n].text);
    } else if n == "doi" {
      assert v[n] == OptText(b.doi);
    } else if n == "url" {
      assert v[n] == OptText(b.url);
    } else if n == "note" {
      assert v[n] == OptText(b.note);
    } else {
      assert v[n] == OptText(b.app);
    }
  }

  /** The same for the attributes the class's own `__init__` sets. */
  lemma KindKeepsArguments(t: EntryType, kw: Kwargs, k: Kind)
    requires Binds(t, kw) && TypeOf(k) == t
    requires k.Article? ==> Some(k.journal) == TextIn(kw, "journal") && Some(k.volume) == NumberIn(kw, "volume") &&
                            k.pages == TextIn(kw, "pages") && k.articleNumber == TextIn(kw, "article_number") &&
                            k.number == NumberIn(kw, "number")
    requires k.Book? ==> Some(k.publisher) == TextIn(kw, "publisher") && k.edition == TextIn(kw, "edition") &&
                         k.editor == ListIn(kw, "editor")
    requires k.InProceedings? ==> Some(k.booktitle) == TextIn(kw, "booktitle") && k.pages == TextIn(kw, "pages") &&
                                  k.proceedingsPublisher == TextIn(kw, "publisher") && k.editor == ListIn(kw, "editor")
    requires k.TechReport? ==> Some(k.institution) == TextIn(kw, "institution") && k.reportNumber == TextIn(kw, "number")
    requires k.Thesis? ==> Some(k.school) == TextIn(kw, "school") && Some(k.thesisType) == TextIn(kw, "thesis_type")
    requires k.Software? ==> k.softwarePublisher == TextIn(kw, "publisher") && k.version == TextIn(kw, "version") &&
                             k.license == TextIn(kw, "license")
    ensures forall n :: n in OwnParams(t) && n in kw && kw[n] != VNone ==> KindVars(k)[n] == kw[n]
  {
    KindVarsKeys(k);
    forall n | n in OwnParams(t) && n in kw && kw[n] != VNone
      ensures KindVars(k)[n] == kw[n]
    {
      assert Typed(t, n, kw[n]);
    }
  }

  /**
   * `cls(**kwargs)` stores every argument it is passed, other than None,
   * as the attribute of that name.
   */
  lemma InstantiateKeepsArguments(t: EntryType, kw: Kwargs)
    requires Instantiate(t, kw).Success?
    ensures forall n :: n in kw && kw[n] != VNone ==>
              n in Vars(Instantiate(t, kw).value) && Vars(Instantiate(t, kw).value)[n] == kw[n]
  {
    var e := Instantiate(t, kw).value;
    match t {
      case ArticleType => ArticleInstantiate(kw);
      case BookType => BookInstantiate(kw);
      case InProceedingsType => InProceedingsInstantiate(kw);
      case TechReportType => TechReportInstantiate(kw);
      case ThesisType => ThesisInstantiate(kw);
      case SoftwareType => SoftwareInstantiate(kw);
      case MiscType => MiscInstantiate(kw);
    }
    BaseKeepsArguments(t, kw, e.base);
    KindKeepsArguments(t, kw, e.kind);
    VarsKeys(e);
    forall n | n in kw && kw[n] != VNone
      ensures n in Vars(e) && Vars(e)[n] == kw[n]
    {
      if n in CommonParams() {
        BaseAt(e, n);
      } else {
        KindAt(e, n);
      }
    }
  }

  // =====================================================================
  // Attributes and the dict form

  function OptText(o: Option<string>): Value {
    if o.Some? then VStr(o.value) else VNone
  }

  function OptNumber(o: Option<int>): Value {
    if o.Some? then VInt(o.value) else VNone
  }

  function OptList(o: Option<seq<string>>): Value {
    if o.Some? then VList(o.value) else VNone
  }

  function BaseVars(b: Base): Kwargs {
    map["author" := VList(b.author), "title" := VStr(b.title), "year" := VInt(b.year),
        "doi" := OptText(b.doi), "url" := OptText(b.url), "note" := OptText(b.note),
        "key" := VStr(b.key), "app" := OptText(b.app)]
  }

  function KindVars(k: Kind): Kwargs {
    match k
    case Article(journal, volume, pages, articleNumber, number) =>
      map["journal" := VStr(journal), "volume" := VInt(volume), "pages" := OptText(pages),
          "article_number" := OptText(articleNumber), "number" := OptNumber(number)]
    case Book(publisher, edition, editor) =>
      map["publisher" := VStr(publisher), "edition" := OptText(edition), "editor" := OptList(editor)]
    case InProceedings(booktitle, pages, publisher, editor) =>
      map["booktitle" := VStr(booktitle), "pages" := OptText(pages),
          "publisher" := OptText(publisher), "editor" := OptList(editor)]
    case TechReport(institution, number) =>
      map["institution" := VStr(institution), "number" := OptText(number)]
    case Thesis(school, thesisType) =>
      map["school" := VStr(school), "thesis_type" := VStr(thesisType)]
    case Software(publisher, version, license) =>
      map["publisher" := OptText(publisher), "version" := OptText(version), "license" := OptText(license)]
    case Misc => map[]
  }

  /** `vars(self)`: every attribute by name. */
  function Vars(e: Entry): Kwargs {
    KindVars(e.kind) + BaseVars(e.base)
  }

  /** The attribute names are exactly the constructor's parameters. */
  lemma VarsKeys(e: Entry)
    ensures Vars(e).Keys == Params(TypeOf(e.kind))
  {
    BaseVarsKeys(e.base);
    KindVarsKeys(e.kind);
  }

  /** The dict form's discriminator is not the name of any attribute. */
  lemma TypeIsNotParam(t: EntryType)
    ensures "type" !in Params(t)
  {
  }

  /** `to_dict`: the `"type"` discriminator plus every attribute, unchanged. */
  function ToDict(e: Entry): (r: Kwargs)
    ensures "type" in r && r["type"] == VStr(TypeName(TypeOf(e.kind)))
    ensures r - {"type"} == Vars(e)
  {
    TypeIsNotParam(TypeOf(e.kind));
    VarsKeys(e);
    map["type" := VStr(TypeName(TypeOf(e.kind)))] + Vars(e)
  }

  /**
   * `from_dict`: a missing or None `"type"` and a `"type"` that names no
   * class are errors; otherwise the class is called with the remaining
   * entries as keyword arguments. The caller's dict is a value here, so it
   * cannot be changed.
   */
  function FromDict(data: Kwargs): (r: Result<Entry, Error>)
    ensures ("type" !in data || data["type"] == VNone) ==> r == Failure(MissingTypeKey)
    ensures "type" in data && data["type"] != VNone &&
            (!data["type"].VStr? || TypeNamed(data["type"].text).None?) ==>
              r == Failure(UnknownType(data["type"]))
    ensures "type" in data && data["type"].VStr? && TypeNamed(data["type"].text).Some? ==>
              r == Instantiate(TypeNamed(data["type"].text).value, data - {"type"})
    ensures r.Success? ==> Valid(r.value) && data["type"] == VStr(TypeName(TypeOf(r.value.kind)))
  {
    var typeValue := if "type" in data then data["type"] else VNone;
    if typeValue == VNone then Failure(MissingTypeKey)
    else if !typeValue.VStr? || TypeNamed(typeValue.text).None? then Failure(UnknownType(typeValue))
    else Instantiate(TypeNamed(typeValue.text).value, data - {"type"})
  }

  lemma BaseVarsKeys(b: Base)
    ensures BaseVars(b).Keys == CommonParams()
  {
  }

  lemma KindVarsKeys(k: Kind)
    ensures KindVars(k).Keys == OwnParams(TypeOf(k))
  {
  }

  /** Looking up an attribute of `Base` in the merged attribute map. */
  lemma BaseAt(e: Entry, n: string)
    requires n in BaseVars(e.base)
    ensures n in Vars(e) && Vars(e)[n] == BaseVars(e.base)[n]
  {
  }

  /** Looking up an attribute of the `Kind` in the merged attribute map. */
  lemma KindAt(e: Entry, n: string)
    requires n in KindVars(e.kind) && n !in CommonParams()
    ensures n in Vars(e) && Vars(e)[n] == KindVars(e.kind)[n]
  {
    BaseVarsKeys(e.base);
  }

  /** An entry's attributes give back its common keyword arguments. */
  lemma CommonArgsOfVars(e: Entry)
    ensures CommonKeywordArgs(Vars(e)) ==
              Success(CommonKeywords(e.base.doi, e.base.url, e.base.note, Some(e.base.key), e.base.app))
  {
    var b := e.base;
    BaseAt(e, "doi");
    BaseAt(e, "url");
    BaseAt(e, "note");
    BaseAt(e, "key");
    BaseAt(e, "app");
    assert BaseVars(b)["doi"] == OptText(b.doi);
    assert BaseVars(b)["url"] == OptText(b.url);
    assert BaseVars(b)["note"] == OptText(b.note);
    assert BaseVars(b)["key"] == VStr(b.key);
    assert BaseVars(b)["app"] == OptText(b.app);
  }

  /** An entry's attributes give back its author, title and year arguments. */
  lemma RequiredArgsOfVars(e: Entry)
    ensures "author" in Vars(e) && "title" in Vars(e) && "year" in Vars(e)
    ensures OptListArg(Vars(e), "author") == Success(Some(e.base.author))
    ensures TextArg(Vars(e), "title") == Success(e.base.title)
    ensures NumberArg(Vars(e), "year") == Success(e.base.year)
  {
    BaseAt(e, "author");
    BaseAt(e, "title");
    BaseAt(e, "year");
  }

  // An entry's attributes give back the arguments of its class's own
  // `__init__`: one lemma per class.

  lemma ArticleArgsOfVars(e: Entry)
    requires e.kind.Article?
    ensures OptTextArg(Vars(e), "journal") == Success(Some(e.kind.journal))
    ensures OptNumberArg(Vars(e), "volume") == Success(Some(e.kind.volume))
    ensures OptTextArg(Vars(e), "pages") == Success(e.kind.pages)
    ensures OptTextArg(Vars(e), "article_number") == Success(e.kind.articleNumber)
    ensures OptNumberArg(Vars(e), "number") == Success(e.kind.number)
  {
    KindAt(e, "journal");
    KindAt(e, "volume");
    KindAt(e, "pages");
    KindAt(e, "article_number");
    KindAt(e, "number");
  }

  lemma BookArgsOfVars(e: Entry)
    requires e.kind.Book?
    ensures OptTextArg(Vars(e), "publisher") == Success(Some(e.kind.publisher))
    ensures OptTextArg(Vars(e), "edition") == Success(e.kind.edition)
    ensures OptListArg(Vars(e), "editor") == Success(e.kind.editor)
  {
    KindAt(e, "publisher");
    KindAt(e, "edition");
    KindAt(e, "editor");
  }

  lemma InProceedingsArgsOfVars(e: Entry)
    requires e.kind.InProceedings?
    ensures OptTextArg(Vars(e), "booktitle") == Success(Some(e.kind.booktitle))
    ensures OptTextArg(Vars(e), "pages") == Success(e.kind.pages)
    ensures OptTextArg(Vars(e), "publisher") == Success(e.kind.proceedingsPublisher)
    ensures OptListArg(Vars(e), "editor") == Success(e.kind.editor)
  {
    KindAt(e, "booktitle");
    KindAt(e, "pages");
    KindAt(e, "publisher");
    KindAt(e, "editor");
  }

  lemma TechReportArgsOfVars(e: Entry)
    requires e.kind.TechReport?
    ensures OptTextArg(Vars(e), "institution") == Success(Some(e.kind.institution))
    ensures OptTextArg(Vars(e), "number") == Success(e.kind.reportNumber)
  {
    KindAt(e, "institution");
    KindAt(e, "number");
  }

  lemma ThesisArgsOfVars(e: Entry)
    requires e.kind.Thesis?
    ensures OptTextArg(Vars(e), "school") == Success(Some(e.kind.school))
    ensures OptTextArg(Vars(e), "thesis_type") == Success(Some(e.kind.thesisType))
  {
    KindAt(e, "school");
    KindAt(e, "thesis_type");
  }

  lemma SoftwareArgsOfVars(e: Entry)
    requires e.kind.Software?
    ensures OptTextArg(Vars(e), "publisher") == Success(e.kind.softwarePublisher)
    ensures OptTextArg(Vars(e), "version") == Success(e.kind.version)
    ensures OptTextArg(Vars(e), "license") == Success(e.kind.license)
  {
    KindAt(e, "publisher");
    KindAt(e, "version");
    KindAt(e, "license");
  }

  /** The class's own constructor, given an entry's attributes, rebuilds the entry. */
  lemma ConstructOfVars(e: Entry)
    requires Valid(e)
    ensures Construct(TypeOf(e.kind), Vars(e), Some(e.base.author), e.base.title, e.base.year,
                      CommonKeywords(e.base.doi, e.base.url, e.base.note, Some(e.base.key), e.base.app))
            == Success(e)
  {
    var b := e.base;
    var common := CommonKeywords(b.doi, b.url, b.note, Some(b.key), b.app);
    assert InitBase(TypeName(TypeOf(e.kind)), Some(b.author), b.title, b.year, common) == Success(b);
    match e.kind
    case Article(_, _, _, _, _) => ArticleArgsOfVars(e);
    case Book(_, _, _) => BookArgsOfVars(e);
    case InProceedings(_, _, _, _) => InProceedingsArgsOfVars(e);
    case TechReport(_, _) => TechReportArgsOfVars(e);
    case Thesis(_, _) => ThesisArgsOfVars(e);
    case Software(_, _, _) => SoftwareArgsOfVars(e);
    case Misc =>
  }

  /** An entry's attributes name no parameter its class lacks, and every positional one. */
  lemma VarsBindEveryParameter(e: Entry)
    ensures Vars(e).Keys - Params(TypeOf(e.kind)) == {}
    ensures Positional(TypeOf(e.kind)) - Vars(e).Keys == {}
  {
    VarsKeys(e);
    assert Positional(TypeOf(e.kind)) <= Params(TypeOf(e.kind));
  }

  /** Calling an entry's class with all of its attributes as keyword arguments rebuilds the entry. */
  lemma InstantiateOfVars(e: Entry)
    requires Valid(e)
    ensures Instantiate(TypeOf(e.kind), Vars(e)) == Success(e)
  {
    VarsBindEveryParameter(e);
    CommonArgsOfVars(e);
    RequiredArgsOfVars(e);
    ConstructOfVars(e);
  }

  /** `from_dict(to_dict(e)) == e` for every entry construction can produce, `key` and `app` included. */
  lemma DictRoundTrip(e: Entry)
    requires Valid(e)
    ensures FromDict(ToDict(e)) == Success(e)
  {
    var t := TypeOf(e.kind);
    assert TypeNamed(TypeName(t)) == Some(t);
    InstantiateOfVars(e);
  }

  // =====================================================================
  // Equality and hashing

  /**
   * `_content_fields(self, {"key", "app"})`: the values of every attribute
   * except `key` and `app`, ordered by attribute name (`sorted(vars(self))`).
   */
  function ContentFields(e: Entry): seq<Value> {
    var b := e.base;
    match e.kind
    case Article(journal, volume, pages, articleNumber, number) =>
      [OptText(articleNumber), VList(b.author), OptText(b.doi), VStr(journal), OptText(b.note),
       OptNumber(number), OptText(pages), VStr(b.title), OptText(b.url), VInt(volume), VInt(b.year)]
    case Book(publisher, edition, editor) =>
      [VList(b.author), OptText(b.doi), OptText(edition), OptList(editor), OptText(b.note),
       VStr(publisher), VStr(b.title), OptText(b.url), VInt(b.year)]
    case InProceedings(booktitle, pages, publisher, editor) =>
      [VList(b.author), VStr(booktitle), OptText(b.doi), OptList(editor), OptText(b.note),
       OptText(pages), OptText(publisher), VStr(b.title), OptText(b.url), VInt(b.year)]
    case TechReport(institution, number) =>
      [VList(b.author), OptText(b.doi), VStr(institution), OptText(b.note), OptText(number),
       VStr(b.title), OptText(b.url), VInt(b.year)]
    case Thesis(school, thesisType) =>
      [VList(b.author), OptText(b.doi), OptText(b.note), VStr(school), VStr(thesisType),
       VStr(b.title), OptText(b.url), VInt(b.year)]
    case Software(publisher, version, license) =>
      [VList(b.author), OptText(b.doi), OptText(license), OptText(b.note), OptText(publisher),
       VStr(b.title), OptText(b.url), OptText(version), VInt(b.year)]
    case Misc =>
      [VList(b.author), OptText(b.doi), OptText(b.note), VStr(b.title), OptText(b.url), VInt(b.year)]
  }

  /** `__eq__`: the same class and the same content fields. */
  predicate Equal(a: Entry, b: Entry) {
    TypeOf(a.kind) == TypeOf(b.kind) && ContentFields(a) == ContentFields(b)
  }

  /** What `__hash__` hashes: the class name and the content fields. */
  function HashInput(e: Entry): (string, seq<Value>) {
    (TypeName(TypeOf(e.kind)), ContentFields(e))
  }

  /** Everything but `key` and `app` agrees. */
  predicate SameContent(a: Entry, b: Entry) {
    && a.kind == b.kind
    && a.base.author == b.base.author && a.base.title == b.base.title
    && a.base.year == b.base.year && a.base.doi == b.base.doi
    && a.base.url == b.base.url && a.base.note == b.base.note
  }

  // Equal content fields determine the content, one lemma per class.

  lemma ArticleContentDetermines(a: Entry, b: Entry)
    requires a.kind.Article? && b.kind.Article? && ContentFields(a) == ContentFields(b)
    ensures SameContent(a, b)
  {
    var ca, cb := ContentFields(a), ContentFields(b);
    assert ca[0] == cb[0] && ca[1] == cb[1] && ca[2] == cb[2] && ca[3] == cb[3];
    assert ca[4] == cb[4] && ca[5] == cb[5] && ca[6] == cb[6] && ca[7] == cb[7];
    assert ca[8] == cb[8] && ca[9] == cb[9] && ca[10] == cb[10];
  }

  lemma BookContentDetermines(a: Entry, b: Entry)
    requires a.kind.Book? && b.kind.Book? && ContentFields(a) == ContentFields(b)
    ensures SameContent(a, b)
  {
    var ca, cb := ContentFields(a), ContentFields(b);
    assert ca[0] == cb[0] && ca[1] == cb[1] && ca[2] == cb[2] && ca[3] == cb[3];
    assert ca[4] == cb[4] && ca[5] == cb[5] && ca[6] == cb[6] && ca[7] == cb[7];
    assert ca[8] == cb[8];
  }

  lemma InProceedingsContentDetermines(a: Entry, b: Entry)
    requires a.kind.InProceedings? && b.kind.InProceedings? && ContentFields(a) == ContentFields(b)
    ensures SameContent(a, b)
  {
    var ca, cb := ContentFields(a), ContentFields(b);
    assert ca[0] == cb[0] && ca[1] == cb[1] && ca[2] == cb[2] && ca[3] == cb[3];
    assert ca[4] == cb[4] && ca[5] == cb[5] && ca[6] == cb[6] && ca[7] == cb[7];
    assert ca[8] == cb[8] && ca[9] == cb[9];
  }

  lemma TechReportContentDetermines(a: Entry, b: Entry)
    requires a.kind.TechReport? && b.kind.TechReport? && ContentFields(a) == ContentFields(b)
    ensures SameContent(a, b)
  {
    var ca, cb := ContentFields(a), ContentFields(b);
    assert ca[0] == cb[0] && ca[1] == cb[1] && ca[2] == cb[2] && ca[3] == cb[3];
    assert ca[4] == cb[4] && ca[5] == cb[5] && ca[6] == cb[6] && ca[7] == cb[7];
  }

  lemma ThesisContentDetermines(a: Entry, b: Entry)
    requires a.kind.Thesis? && b.kind.Thesis? && ContentFields(a) == ContentFields(b)
    ensures SameContent(a, b)
  {
    var ca, cb := ContentFields(a), ContentFields(b);
    assert ca[0] == cb[0] && ca[1] == cb[1] && ca[2] == cb[2] && ca[3] == cb[3];
    assert ca[4] == cb[4] && ca[5] == cb[5] && ca[6] == cb[6] && ca[7] == cb[7];
  }

  lemma SoftwareContentDetermines(a: Entry, b: Entry)
    requires a.kind.Software? && b.kind.Software? && ContentFields(a) == ContentFields(b)
    ensures SameContent(a, b)
  {
    var ca, cb := ContentFields(a), ContentFields(b);
    assert ca[0] == cb[0] && ca[1] == cb[1] && ca[2] == cb[2] && ca[3] == cb[3];
    assert ca[4] == cb[4] && ca[5] == cb[5] && ca[6] == cb[6] && ca[7] == cb[7];
    assert ca[8] == cb[8];
  }

  lemma MiscContentDetermines(a: Entry, b: Entry)
    requires a.kind.Misc? && b.kind.Misc? && ContentFields(a) == ContentFields(b)
    ensures SameContent(a, b)
  {
    var ca, cb := ContentFields(a), ContentFields(b);
    assert ca[0] == cb[0] && ca[1] == cb[1] && ca[2] == cb[2] && ca[3] == cb[3];
    assert ca[4] == cb[4] && ca[5] == cb[5];
  }

  /** Equality is attribute-by-attribute equality of everything except `key` and `app`. */
  lemma EqualIffSameContent(a: Entry, b: Entry)
    ensures Equal(a, b) <==> SameContent(a, b)
  {
    if Equal(a, b) {
      match a.kind
      case Article(_, _, _, _, _) => ArticleContentDetermines(a, b);
      case Book(_, _, _) => BookContentDetermines(a, b);
      case InProceedings(_, _, _, _) => InProceedingsContentDetermines(a, b);
      case TechReport(_, _) => TechReportContentDetermines(a, b);
      case Thesis(_, _) => ThesisContentDetermines(a, b);
      case Software(_, _, _) => SoftwareContentDetermines(a, b);
      case Misc => MiscContentDetermines(a, b);
    }
  }

  /** Entries that compare equal hash the same input, and so have equal hashes. */
  lemma EqualImpliesEqualHash(a: Entry, b: Entry)
    requires Equal(a, b)
    ensures HashInput(a) == HashInput(b)
  {
  }

  /** Changing only `key` and `app` gives an equal entry. */
  lemma EqualIgnoresKeyAndApp(e: Entry, key: string, app: Option<string>)
    ensures Equal(e, Entry(e.base.(key := key, app := app), e.kind))
  {
  }

  // =====================================================================
  // summary

  /** `_author_summary`: the first author's surname, with " et al." when there are several authors. */
  function AuthorSummary(authors: seq<string>): (r: string)
    requires |authors| > 0
    ensures |authors| > 1 ==> r == ExtractSurname(authors[0]) + " et al."
    ensures |authors| == 1 ==> r == ExtractSurname(authors[0])
  {
    var surname := ExtractSurname(authors[0]);
    if |authors| > 1 then surname + " et al." else surname
  }

  const Ellipsis: char := '\U{2026}'

  /** `_title_excerpt` with its default limit of 50 characters. */
  function TitleExcerpt(title: string): (r: string)
    ensures |title| <= 50 ==> r == title
    ensures |title| > 50 ==> |r| == 51 && r[..50] == title[..50] && r[50] == Ellipsis
  {
    if |title| <= 50 then title else title[..50] + [Ellipsis]
  }

  /** `summary`: `(app or "", "<authors> <year> <title excerpt>")`. */
  function Summary(e: Entry): (r: (string, string))
    requires |e.base.author| > 0
    ensures r.0 == if e.base.app.Some? then e.base.app.value else ""
  {
    var appName := if e.base.app.Some? then e.base.app.value else "";
    (appName, AuthorSummary(e.base.author) + " " + IntToString(e.base.year) + " " + TitleExcerpt(e.base.title))
  }
}
