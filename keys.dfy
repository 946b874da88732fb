/**
 * The helpers the entry classes import from `citeable._keys` and
 * `citeable._validate` (src/citeable/_entries.py:7-8). Their source is not
 * part of this model. The bodies below follow the library's documented
 * rules for them; no property proved about the entry model depends on
 * these bodies beyond what each declaration's comment says.
 */
module Keys {
  import opened Wrappers
  import opened Text

  /**
   * `extract_surname`: the text before the first comma of a
   * "Surname, Given" name, otherwise the last whitespace-separated token,
   * otherwise the whole name.
   */
  function ExtractSurname(name: string): string {
    match FindChar(name, ',', 0)
    case Some(c) => Strip(name[..c])
    case None =>
      var words := Words(name);
      if |words| == 0 then name else words[|words| - 1]
  }

  /**
   * `generate_key`: the first author's surname, a dot, then the year; the
   * text after the surname and the dot reads back as the year.
   */
  function GenerateKey(authors: seq<string>, year: int): (r: string)
    requires |authors| > 0
    ensures var n := |ExtractSurname(authors[0])|;
            && |r| > n && r[..n] == ExtractSurname(authors[0]) && r[n] == '.'
            && ParseInt(r[n + 1..]) == Some(year)
  {
    var surname := ExtractSurname(authors[0]);
    var r := surname + "." + IntToString(year);
    ParseIntOfIntToString(year);
    assert r[|surname| + 1..] == IntToString(year);
    r
  }

  /** `require_field` on a text argument: it is given and not empty. */
  predicate TextGiven(value: Option<string>) {
    value.Some? && value.value != ""
  }

  /** `require_field` on an integer argument: it is given. */
  predicate NumberGiven(value: Option<int>) {
    value.Some?
  }

  /** `require_non_empty_authors`: an author list is given and holds at least one name. */
  predicate AuthorsGiven(author: Option<seq<string>>) {
    author.Some? && |author.value| > 0
  }
}
