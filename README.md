# citeable: the BibTeX record parser and the citation entry model

This project models two parts of the `citeable` library and proves properties of them.

The first part is the single-record BibTeX parser, `from_bibtex_string` (src/citeable/_parser.py). It works in these steps:
- It finds every `@type{` marker and cuts out the record body with a brace-depth counter.
- It splits off the cite key at the first comma.
- It cuts the field text at `name =` line starts and decodes braced, quoted and bare values.
- It normalises author and editor names to "Last, First".
- It converts `year`, `volume` and `number` to integers.
- It dispatches on the lower-cased type token and calls the entry class with the keyword arguments it built.

The second part is the entry model (src/citeable/_entries.py). It covers the seven citation classes and their construction checks. It also covers:
- the default-key rule;
- content equality and hashing, which ignore `key` and `app`;
- `summary`;
- the fixed-layout BibTeX text of `__str__` and the `__repr__` text;
- the dict form with its `"type"` discriminator.

Modules, one file each:

- `Wrappers` (wrappers.dfy): `Option` and `Result`.
- `Text` (text.dfy): stand-ins for the Python string operations the code relies on: `strip`, `rstrip(",")`, `split()`, `split(sep)`, `join`, `find`, `ljust`, `lower`, `int()` and `str()` on integers.
- `Keys` (keys.dfy): `generate_key`, `extract_surname`, `require_field` and `require_non_empty_authors`, which the entry classes import.
- `Entries` (entries.dfy): an entry is an immutable value, so it is a datatype. `Base` holds the attributes `_init_base` sets. `Kind` holds the class and the attributes its own `__init__` sets. The seven constructors are functions returning `Result`. `Instantiate` models the call `cls(**kwargs)` that both the parser and `from_dict` make.
- `Rendering` (rendering.dfy): each `__str__` is a method that appends lines one by one. Each is proved equal to a declarative table of `(name, optional value)` slots, and the layout lemmas are stated about that table.
- `Repr` (repr.dfy): each `_repr_fields` and `__repr__` is treated the same way.
- `BibScan` (bib_scan.dfy): specification functions for the two regular expressions, the brace-depth scan, value decoding and the field map.
- `Parser` (parser.dfy): the loops of `_extract_entries`, `_extract_value` and `_parse_fields`, the dict-building keyword-argument builders, and `from_bibtex_string` itself. Each is a method proved equal to a specification function, and the parser's promises are lemmas about those functions.

## Model

| member | source | states |
|---|---|---|
| Text.Strip | src/citeable/_parser.py:62 | `name.strip()`: the text after the leading whitespace, cut so that only whitespace follows, neither starting nor ending with whitespace |
| Text.StripIdempotent | src/citeable/_parser.py:62 | stripping twice gives the same as stripping once |
| Text.SplitOn | src/citeable/_parser.py:70 | `raw.split(" and ")`: the pieces joined with the separator give the text back, no piece before the last runs into the separator after it, and no piece contains the separator |
| Text.SplitOnUnique | src/citeable/_parser.py:70 | any list of pieces of that shape is the split, so the cuts are the leftmost ones |
| Text.JoinSplitShape | src/citeable/_entries.py:15-16 | pieces free of the separator, joined with it, have the shape of a split |
| Text.Words | src/citeable/_parser.py:65 | `name.split()`: every piece is a non-empty run of non-whitespace, and there are none exactly when the text is all whitespace |
| Text.WordsOfJoin | src/citeable/_parser.py:65-66 | tokens joined by single spaces split back into the same tokens |
| Text.LJust | src/citeable/_entries.py:12 | `{name:<10}` pads with spaces up to the width and never truncates |
| Text.Lower | src/citeable/_parser.py:104 | lower-casing maps every character through the ASCII lower-case mapping, keeping the length and leaving no upper-case letter |
| Text.ParseIntOfIntToString | src/citeable/_entries.py:201 | `int(str(i)) == i`: a year or volume written as text reads back as the same number |
| Keys.GenerateKey | src/citeable/_entries.py:77 | the default key is the first author's surname, a dot, then text that reads back as the year |
| Entries.TypeNamed | src/citeable/_entries.py:577-585 | looking up `_ENTRY_TYPES` finds the class of exactly that name, and nothing when no class has the name |
| Entries.InitBase | src/citeable/_entries.py:57-78 | fails exactly when the author list is missing or empty; otherwise stores title, year, doi, url, note and app; the key is the given key verbatim, or `generate_key(author, year)` when none is given |
| Entries.NewArticle | src/citeable/_entries.py:163-193 | journal is checked, then volume, then "pages or article_number", all before the authors; succeeds exactly when all hold; stores every argument |
| Entries.NewBook | src/citeable/_entries.py:239-261 | a missing publisher fails before the author check; succeeds exactly when publisher and authors are given; stores every argument |
| Entries.NewInProceedings | src/citeable/_entries.py:302-326 | a missing booktitle fails first; succeeds exactly when booktitle and authors are given; stores every argument |
| Entries.NewTechReport | src/citeable/_entries.py:369-389 | a missing institution fails first; succeeds exactly when institution and authors are given; stores every argument |
| Entries.NewThesis | src/citeable/_entries.py:424-448 | school, then thesis_type, then "phd or masters" are checked before the authors; succeeds exactly when all hold; stores every argument |
| Entries.NewSoftware | src/citeable/_entries.py:482-502 | succeeds exactly when authors are given; stores every argument |
| Entries.NewMisc | src/citeable/_entries.py:540-554 | succeeds exactly when authors are given; stores the common attributes |
| Entries.Instantiate | src/citeable/_entries.py:143 | `cls(**kwargs)`: keywords the class does not take are rejected first, then missing positional arguments; a success is a valid entry of that class whose arguments bind the class's parameters with their types, and a text `key` argument is stored verbatim |
| Entries.Construct | src/citeable/_entries.py:143 | the class's own arguments are decoded and its constructor called; a success is valid, of the requested class, with the common attributes `_init_base` sets and class arguments of their parameters' types |
| Entries.InstantiateConstructs | src/citeable/_entries.py:143 | arguments that bind the class's parameters pass the binding step and reach the constructor with their decoded values |
| Entries.ArticleInstantiate | src/citeable/_entries.py:143 | for bound arguments, `Article(**kwargs)` is `NewArticle` applied to the decoded arguments, with its failures and stored attributes |
| Entries.BookInstantiate | src/citeable/_entries.py:143 | the same for `Book(**kwargs)` and `NewBook` |
| Entries.InProceedingsInstantiate | src/citeable/_entries.py:143 | the same for `InProceedings(**kwargs)` and `NewInProceedings` |
| Entries.TechReportInstantiate | src/citeable/_entries.py:143 | the same for `TechReport(**kwargs)` and `NewTechReport` |
| Entries.ThesisInstantiate | src/citeable/_entries.py:143 | the same for `Thesis(**kwargs)` and `NewThesis` |
| Entries.SoftwareInstantiate | src/citeable/_entries.py:143 | the same for `Software(**kwargs)` and `NewSoftware` |
| Entries.MiscInstantiate | src/citeable/_entries.py:143 | the same for `Misc(**kwargs)` and `NewMisc` |
| Entries.InstantiateKeepsArguments | src/citeable/_entries.py:143 | after a successful `cls(**kwargs)`, every argument passed with a value other than None is the attribute of that name |
| Entries.VarsKeys | src/citeable/_entries.py:126 | the attribute names of an entry are exactly its class's constructor parameters |
| Entries.TypeIsNotParam | src/citeable/_entries.py:126 | the `"type"` discriminator never collides with an attribute name |
| Entries.ToDict | src/citeable/_entries.py:124-126 | `"type"` is the class name, and the rest of the dict is every attribute unchanged |
| Entries.FromDict | src/citeable/_entries.py:129-143 | a missing or None `"type"` is the missing-type error; a type naming no class is the unknown-type error; a type naming a class gives exactly `cls(**rest)` for the rest of the dict; a success is a valid entry whose class is the named one |
| Entries.CommonArgsOfVars | src/citeable/_entries.py:57-78 | an entry's attributes, used as keyword arguments, give back its doi, url, note, key and app |
| Entries.RequiredArgsOfVars | src/citeable/_entries.py:57-78 | an entry's attributes give back its author, title and year arguments |
| Entries.ArticleArgsOfVars | src/citeable/_entries.py:163-193 | an Article's attributes give back every Article argument |
| Entries.BookArgsOfVars | src/citeable/_entries.py:239-261 | a Book's attributes give back every Book argument |
| Entries.InProceedingsArgsOfVars | src/citeable/_entries.py:302-326 | an InProceedings's attributes give back every InProceedings argument |
| Entries.TechReportArgsOfVars | src/citeable/_entries.py:369-389 | a TechReport's attributes give back every TechReport argument |
| Entries.ThesisArgsOfVars | src/citeable/_entries.py:424-448 | a Thesis's attributes give back its school and thesis type |
| Entries.SoftwareArgsOfVars | src/citeable/_entries.py:482-502 | a Software entry's attributes give back every Software argument |
| Entries.ConstructOfVars | src/citeable/_entries.py:143 | a valid entry's class constructor, given the entry's attributes, rebuilds the same entry |
| Entries.VarsBindEveryParameter | src/citeable/_entries.py:143 | an entry's attributes bind no unknown parameter and every positional one |
| Entries.InstantiateOfVars | src/citeable/_entries.py:143 | calling a valid entry's class with all its attributes rebuilds the entry |
| Entries.DictRoundTrip | src/citeable/_entries.py:124-143 | `from_dict(to_dict(e)) == e` for every valid entry, `key` and `app` included |
| Entries.ArticleContentDetermines | src/citeable/_entries.py:28-39 | for Articles, equal content tuples mean every attribute other than key and app agrees |
| Entries.BookContentDetermines | src/citeable/_entries.py:28-39 | the same for Books |
| Entries.InProceedingsContentDetermines | src/citeable/_entries.py:28-39 | the same for InProceedings |
| Entries.TechReportContentDetermines | src/citeable/_entries.py:28-39 | the same for TechReports |
| Entries.ThesisContentDetermines | src/citeable/_entries.py:28-39 | the same for Theses |
| Entries.SoftwareContentDetermines | src/citeable/_entries.py:28-39 | the same for Software entries |
| Entries.MiscContentDetermines | src/citeable/_entries.py:28-39 | the same for Misc entries |
| Entries.EqualIffSameContent | src/citeable/_entries.py:80-85 | `__eq__` (`Equal`, comparing the class and the `_content_fields` tuple `ContentFields`) holds exactly when two entries are of the same class and agree on every attribute except key and app |
| Entries.EqualImpliesEqualHash | src/citeable/_entries.py:87-88 | equal entries give `__hash__` the same input (`HashInput`), so their hashes are equal |
| Entries.EqualIgnoresKeyAndApp | src/citeable/_entries.py:42 | changing only key and app gives an equal entry |
| Entries.AuthorSummary | src/citeable/_entries.py:19-21 | the first author's surname, followed by " et al." exactly when there is more than one author |
| Entries.TitleExcerpt | src/citeable/_entries.py:24-25 | a title of at most 50 characters is kept; a longer one becomes its first 50 characters and an ellipsis, 51 in all |
| Entries.Summary | src/citeable/_entries.py:90-95 | the first component is the app, or "" when there is none |
| Rendering.FormatFieldLayout | src/citeable/_entries.py:11-12 | `_format_bibtex_field` (`FormatField`): a field line is two spaces, the name padded to width 10 (never truncated), `= {`, the value and `},` |
| Rendering.ParseFieldLine | src/citeable/_entries.py:11-12 | reading a field line back yields a well-formed field name |
| Rendering.FieldLineRoundTrip | src/citeable/_entries.py:11-12 | reading back a formatted field line gives its name and value |
| Rendering.FieldLineInjective | src/citeable/_entries.py:11-12 | two field lines are equal exactly when their names and values are |
| Rendering.BibType | src/citeable/_entries.py:450-451 | every other class renders as its class name in lower case; a Thesis renders as `phdthesis` exactly when its type is "phd", and as `mastersthesis` otherwise |
| Rendering.BibtexLines | src/citeable/_entries.py:195-212 | the first line is `@<bibtype>{<key>,`, the last is `}`, with one line per field shown in between |
| Rendering.BibtexLayout | src/citeable/_entries.py:195-212 | each line between the header and `}` is a field line that reads back as the next shown (name, value) pair |
| Rendering.CommonFieldShownIff | src/citeable/_entries.py:106-113 | doi, url and note appear exactly when they are set, with their values |
| Rendering.CommonFieldsLast | src/citeable/_entries.py:106-113 | the set fields among doi, url and note come after all class fields, in that order |
| Rendering.ArticleOptionalShownIff | src/citeable/_entries.py:204-209 | an Article's number, pages and article_number appear exactly when set |
| Rendering.BookOptionalShownIff | src/citeable/_entries.py:271-274 | a Book's edition appears exactly when set; an editor line appears exactly when the editor list is set, holding the list joined by " and " (`_author_str`, `AuthorStr`) |
| Rendering.InProceedingsOptionalShownIff | src/citeable/_entries.py:336-341 | pages and publisher appear exactly when set; an editor line appears exactly when the editor list is set, holding the joined list |
| Rendering.TechReportOptionalShownIff | src/citeable/_entries.py:399-400 | a TechReport's number appears exactly when set |
| Rendering.SoftwareOptionalShownIff | src/citeable/_entries.py:511-516 | publisher, version and license appear exactly when set |
| Rendering.AppendFieldIfSet | src/citeable/_entries.py:204-205 | appending a field when set extends the lines by that slot's line, or by nothing |
| Rendering.AppendCommonBibtex | src/citeable/_entries.py:106-113 | `_append_common_bibtex` appends exactly the lines of the set common fields |
| Rendering.FinishLines | src/citeable/_entries.py:210-212 | the common lines and `}` are appended and the lines joined with newlines, giving the specified text |
| Rendering.ArticleToBibtex | src/citeable/_entries.py:195-212 | `Article.__str__` produces the specified text |
| Rendering.BookToBibtex | src/citeable/_entries.py:263-277 | `Book.__str__` produces the specified text |
| Rendering.InProceedingsToBibtex | src/citeable/_entries.py:328-344 | `InProceedings.__str__` produces the specified text |
| Rendering.TechReportToBibtex | src/citeable/_entries.py:391-403 | `TechReport.__str__` produces the specified text |
| Rendering.ThesisToBibtex | src/citeable/_entries.py:450-461 | `Thesis.__str__` produces the specified text |
| Rendering.SoftwareToBibtex | src/citeable/_entries.py:504-519 | `Software.__str__` produces the specified text |
| Rendering.MiscToBibtex | src/citeable/_entries.py:556-565 | `Misc.__str__` produces the specified text |
| Rendering.ToBibtex | src/citeable/_entries.py:195-212 | `str(entry)` for any class produces the specified text |
| Repr.ReprLines | src/citeable/_entries.py:102 | one `    name=value,` line per field, in order |
| Repr.ReprRequiredFirst | src/citeable/_entries.py:214-218 | author, title and year are always the first three repr fields |
| Repr.KeyShownIff | src/citeable/_entries.py:97-101 | `key=` leads the repr exactly when the key differs from the generated one |
| Repr.ReprOmitsNone | src/citeable/_entries.py:222-227 | no repr field holds None |
| Repr.ReprCommonShownIff | src/citeable/_entries.py:115-122 | doi, url and note are in the repr exactly when set, with their values |
| Repr.ReprAgreesWithVars | src/citeable/_entries.py:214-229 | every repr field shows the value of the attribute of that name |
| Repr.AppendPairIfSet | src/citeable/_entries.py:222-223 | appending a pair when set extends the field list by that slot, or by nothing |
| Repr.RequiredReprFields | src/citeable/_entries.py:215-221 | the list literal of author, title and year |
| Repr.AppendCommonOptionalRepr | src/citeable/_entries.py:115-122 | `_append_common_optional_repr` appends exactly the set common fields in order |
| Repr.ArticleReprFields | src/citeable/_entries.py:214-229 | `Article._repr_fields` yields the specified fields |
| Repr.BookReprFields | src/citeable/_entries.py:279-291 | `Book._repr_fields` yields the specified fields |
| Repr.InProceedingsReprFields | src/citeable/_entries.py:346-360 | `InProceedings._repr_fields` yields the specified fields |
| Repr.TechReportReprFields | src/citeable/_entries.py:405-415 | `TechReport._repr_fields` yields the specified fields |
| Repr.ThesisReprFields | src/citeable/_entries.py:463-472 | `Thesis._repr_fields` yields the specified fields |
| Repr.SoftwareReprFields | src/citeable/_entries.py:521-534 | `Software._repr_fields` yields the specified fields |
| Repr.MiscReprFields | src/citeable/_entries.py:567-574 | `Misc._repr_fields` yields the specified fields |
| Repr.CollectReprFields | src/citeable/_entries.py:98 | dispatch to the class's `_repr_fields` |
| Repr.ToRepr | src/citeable/_entries.py:97-104 | `repr(entry)` is the class name, then the field lines (the key first when it is not the generated one) joined by newlines, inside parentheses |
| BibScan.EntryStartAt | src/citeable/_parser.py:20 | a match of `@(\w+)\s*\{` at an index: `@`, a non-empty word, spaces, `{`; and whenever that pattern is present, a match is found |
| BibScan.EntryStarts | src/citeable/_parser.py:37 | `finditer`: the matches found lie inside the text, in order, each starting at or after the end of the previous one |
| BibScan.EntryStartsAreMatches | src/citeable/_parser.py:37 | every match found is the match of the pattern at its start index |
| BibScan.EntryStartsComplete | src/citeable/_parser.py:37 | every index where the pattern matches starts one of the matches found |
| BibScan.TwoEntryStarts | src/citeable/_parser.py:37 | two indices where the pattern matches give at least two matches |
| BibScan.NoEntryStartIff | src/citeable/_parser.py:209-212 | no start marker is found exactly when the pattern matches at no index |
| BibScan.Scan | src/citeable/_parser.py:42-47 | the depth walk stops early only at depth 0, and then just after a `}` |
| BibScan.ScanDepth | src/citeable/_parser.py:42-47 | the final depth is the start depth plus the net braces passed, and the depth stays positive before the end |
| BibScan.BodyExtraction | src/citeable/_parser.py:37-48 | with balanced braces, the body is the text strictly inside the matching pair and is itself balanced; otherwise the walk reaches the end and the body is the rest of the text minus its last character |
| BibScan.SplitKey | src/citeable/_parser.py:49-55 | the key is the trimmed text before the first comma and the fields are the rest; with no comma, the whole trimmed body is the key and there are no fields |
| BibScan.Records | src/citeable/_parser.py:34-57 | one record per start marker |
| BibScan.FieldStartAt | src/citeable/_parser.py:73 | a match of `^\s*(\w+)\s*=\s*` starts at a line start and names a non-empty word |
| BibScan.FieldStartPattern | src/citeable/_parser.py:73 | a match is whitespace, the name, whitespace, `=`, and the whitespace run that ends where the value starts; wherever that pattern is present at a line start, there is a match |
| BibScan.FieldStarts | src/citeable/_parser.py:101 | the field matches are in increasing order without overlap, and every name is non-empty |
| BibScan.FieldStartsAreMatches | src/citeable/_parser.py:101 | every match found is the match of the pattern at its start index |
| BibScan.FieldStartsComplete | src/citeable/_parser.py:101 | every index where the pattern matches starts or lies inside one of the matches found |
| BibScan.DecodeBraced | src/citeable/_parser.py:81-96 | `_extract_value` (`DecodeValue`): a braced value is the balanced text inside the first outer pair; with an unmatched `{`, it is the trimmed raw text |
| BibScan.DecodeQuoted | src/citeable/_parser.py:91-93 | a quoted value fails exactly when there is no closing quote; otherwise it is the quote-free text up to the next `"` |
| BibScan.DecodeBare | src/citeable/_parser.py:94-95 | a bare value always decodes, to trimmed text that is the stripped raw text cut before a tail of commas and whitespace |
| BibScan.FieldsFailStays | src/citeable/_parser.py:107 | once a value fails to decode, the whole field map fails |
| BibScan.FieldsFailIff | src/citeable/_parser.py:99-108 | `_parse_fields` (`Fields`): the field map fails exactly when some value fails to decode |
| BibScan.FieldsKeys | src/citeable/_parser.py:103-107 | the keys are exactly the lower-cased field names |
| BibScan.FieldsLastWins | src/citeable/_parser.py:107 | for a repeated name, the value of its last occurrence is kept |
| BibScan.FieldKeysLowerCase | src/citeable/_parser.py:104 | every key of the field map is lower-case |
| Parser.NormaliseAuthor | src/citeable/_parser.py:60-66 | a trimmed name with a comma or with at most one word is kept; otherwise it is the last word, ", ", then the other words joined by single spaces |
| Parser.NormalisedShape | src/citeable/_parser.py:60-66 | a normalised name is trimmed, and has a comma unless it is a single word |
| Parser.NormaliseIdempotent | src/citeable/_parser.py:60-66 | normalising twice gives the same as normalising once |
| Parser.ParseAuthorsSegments | src/citeable/_parser.py:69-70 | `_parse_authors` (`ParseAuthors`): for any cut of the text at every `" and "`, left to right, one normalised name per segment, in order |
| Parser.ParseNormalisedSegments | src/citeable/_parser.py:69-70 | segments that are already normalised come back unchanged |
| Parser.ParseAuthorsOfJoin | src/citeable/_parser.py:69-70 | names joined with `" and "` as `_author_str` writes them read back as the same names, when each is normalised and holds no `" and "` |
| Parser.TypeMap | src/citeable/_parser.py:22-31 | exactly the eight type tokens are accepted, and both thesis tokens map to Thesis |
| Parser.FromBibtex | src/citeable/_parser.py:207-233 | no record, then several records, then an unsupported lower-cased type, then an unterminated quoted value are reported, in that order |
| Parser.NoMarkerNoEntry | src/citeable/_parser.py:209-212 | text in which the start pattern matches nowhere gives the no-entry error |
| Parser.TwoMarkersMultipleEntries | src/citeable/_parser.py:213-215 | text in which the start pattern matches at two places gives the multiple-entries error |
| Parser.CommonKwargsKeys | src/citeable/_parser.py:111-125 | the common builder sets only common parameters, and `key` is always the cite key |
| Parser.ClassKwargsKeys | src/citeable/_parser.py:128-204 | each class builder, chosen by the class dispatch, sets only parameters of that class |
| Parser.NumericFields | src/citeable/_parser.py:121 | year and the Article volume and number go through `int()`, and a non-number fails; a TechReport number stays text |
| Parser.ThesisTypeOfToken | src/citeable/_parser.py:176-184 | `phdthesis` gives thesis type "phd", `mastersthesis` gives "masters" |
| Parser.CommonIgnoresOtherFields | src/citeable/_parser.py:111-125 | fields outside author, title, year, doi, url and note do not change the common arguments |
| Parser.ClassIgnoresOtherFields | src/citeable/_parser.py:128-193 | fields a class does not read do not change its own arguments |
| Parser.MiscTakesCommonOnly | src/citeable/_parser.py:228-231 | a Misc record gets no arguments beyond the common ones |
| Parser.CommonKwargValue | src/citeable/_parser.py:111-125 | each common field present gives its argument: names split and normalised for author, `int()` for year, the text otherwise |
| Parser.ClassKwargValue | src/citeable/_parser.py:128-193 | each field of the class present gives its argument: editor names split and normalised, `int()` for the Article volume and number, the text otherwise |
| Parser.ArticleKwargValue | src/citeable/_parser.py:128-140 | the same for the Article builder |
| Parser.RecordKwargsNoneFree | src/citeable/_parser.py:226-231 | no argument the parser passes is None |
| Parser.CommonKwargsNoneFree | src/citeable/_parser.py:111-125 | no argument the common builder passes is None |
| Parser.ClassKwargsNoneFree | src/citeable/_parser.py:128-193 | no argument a class builder passes is None |
| Parser.InstantiatedThesisType | src/citeable/_entries.py:447-448 | a Thesis built from keyword arguments keeps the thesis type it was given |
| Parser.RecordKwargsShape | src/citeable/_parser.py:226-231 | the merged arguments only name parameters of the class, and `key` is the record's cite key |
| Parser.RecordEntry | src/citeable/_parser.py:224-233 | a record built successfully gives a valid entry of the requested class, carrying the cite key |
| Parser.ParsedEntry | src/citeable/_parser.py:207-233 | a parsed entry came from exactly one record, is valid, is of the class the lower-cased token names, and keeps the cite key verbatim |
| Parser.ParsedValues | src/citeable/_parser.py:224-233 | every field of the record that the class reads becomes the entry's attribute of that name, with the value derived from the field's text |
| Parser.CarriedFields | src/citeable/_parser.py:115-173 | for such an entry: the title is the field text, the year reads back from the field text, the authors are the field's names normalised, a TechReport number stays text |
| Parser.CarriedTitle | src/citeable/_parser.py:119-120 | the title is the field text |
| Parser.CarriedYear | src/citeable/_parser.py:121 | the year is the field text read by `int()` |
| Parser.CarriedAuthor | src/citeable/_parser.py:117-118 | the authors are the field's names split and normalised |
| Parser.CarriedReportNumber | src/citeable/_parser.py:171-172 | a TechReport's number is the field text |
| Parser.CarriedField | src/citeable/_parser.py:224-233 | the attribute for one carried field |
| Parser.ParsedFields | src/citeable/_parser.py:207-233 | a parsed entry's title, year, authors and TechReport number come from the record's fields |
| Parser.ThesisRecord | src/citeable/_parser.py:176-184 | a thesis-token record builds a Thesis with the matching thesis type |
| Parser.ThesisDispatch | src/citeable/_parser.py:218 | dispatch is on the lower-cased token; `phdthesis` parses to "phd" and `mastersthesis` to "masters" |
| Parser.ExtractEntries | src/citeable/_parser.py:34-57 | `_extract_entries` returns the specified records |
| Parser.ExtractRecord | src/citeable/_parser.py:38-56 | one loop iteration yields the record read from that start marker |
| Parser.WalkBraces | src/citeable/_parser.py:40-47 | the while loop ends where the depth scan ends |
| Parser.SplitCiteKey | src/citeable/_parser.py:49-55 | the comma split yields the specified key and field text |
| Parser.ExtractValue | src/citeable/_parser.py:76-96 | `_extract_value` returns the specified decoding, and fails only on a missing closing quote |
| Parser.ParseFields | src/citeable/_parser.py:99-108 | `_parse_fields` returns the specified field map, and fails when a value does |
| Parser.ExtractFieldValue | src/citeable/_parser.py:105-107 | each value is decoded from the text between its `=` and the next field start, or the end |
| Parser.SetNumber | src/citeable/_parser.py:121 | `int()` on a field, failing on non-numeric text |
| Parser.BuildCommonKwargs | src/citeable/_parser.py:111-125 | `_common_kwargs` builds the specified arguments |
| Parser.BuildArticleKwargs | src/citeable/_parser.py:128-140 | `_article_kwargs` builds the specified arguments |
| Parser.BuildBookKwargs | src/citeable/_parser.py:143-151 | `_book_kwargs` builds the specified arguments |
| Parser.BuildInProceedingsKwargs | src/citeable/_parser.py:154-164 | `_inproceedings_kwargs` builds the specified arguments |
| Parser.BuildTechReportKwargs | src/citeable/_parser.py:167-173 | `_techreport_kwargs` builds the specified arguments |
| Parser.BuildThesisKwargs | src/citeable/_parser.py:176-184 | `_thesis_kwargs` builds the specified arguments |
| Parser.BuildClassKwargs | src/citeable/_parser.py:228-231 | the class dispatch builds the specified arguments |
| Parser.FromBibtexString | src/citeable/_parser.py:207-233 | `from_bibtex_string` returns the specified entry or error |

## Left out

- Character classes are ASCII. Regex `\w` and `\s`, `str.strip`, `str.split()` and `str.lower()` are modelled on ASCII letters, digits, `_` and ASCII whitespace (space, tab, line feed, vertical tab, form feed, carriage return and the separators \x1c to \x1f). Python's Unicode classes and case mappings are not modelled.
- `int()` is modelled as optional surrounding whitespace, an optional sign and decimal digits. Underscore separators and non-ASCII digits are not accepted.
- src/citeable/_keys.py and src/citeable/_validate.py are not part of this model. The `Keys` module gives `generate_key`, `extract_surname`, `require_field` and `require_non_empty_authors` bodies that follow their documented rules. No lemma depends on the key text beyond "the key is either given or generated".
- `assign_unique_keys` and `write_bibtex` are not modelled, because their source is not part of this model.
- src/citeable/_json.py and src/citeable/__init__.py are not modelled. They only map `to_dict`/`from_dict` over lists, do file I/O and re-export names.
- Repr.ReprValue quotes strings with plain single quotes. Python's `repr` choice of quote character and its escaping are not modelled.
- Entries.EqualImpliesEqualHash: concrete hash values are not modelled, only the hashed input. `NotImplemented` for a different class is modelled as "not equal", which is what `==` then returns.
- Entries.Instantiate: `UnexpectedArguments` carries every unexpected keyword, whereas Python's TypeError names only the first.
- Entries.Instantiate: `WrongValueType` is a model-only error for an argument of the wrong Python type. Python would store such a value unchecked.
- Dict values are limited to text, integers, lists of text and None.
- Error messages are represented by error values carrying the offending data, not by message text.
- BibScan.DecodeBare: states that the result is a trimmed prefix of the stripped text followed only by commas and whitespace. Which such prefix (`rstrip(",")` then `strip()`) is captured by `DecodeValue` and the `ExtractValue` method.
- Entries.Summary: its contract states the app component. The author part is stated by `AuthorSummary` and the title part by `TitleExcerpt`; the joined text is not restated.
- Parsing rendered text (`from_bibtex_string(str(e))`) is not proved to give `e` back. Only the field-line round trip and the layout of the rendered lines are proved.
- In-place updates are modelled on values, so aliasing is not modelled. This covers the `append` calls of `__str__` and `_repr_fields`, `fields.insert(0, ...)` in `__repr__`, `kwargs.update`, and the list extended by `_content_fields`. Each is a sequence or map that the method reassigns.
- `from_dict` copying its argument is not modelled. The dict is a value, so the caller's dict can never change.
- `_content_fields` is a function that lists the attribute values in sorted name order, rather than a loop.
- `_software_kwargs`, a dict comprehension, is the function `SoftwareKwargs`.
