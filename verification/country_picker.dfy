/**
 * The country-code picker: a button showing the selected country's dial code, and a modal
 * list of countries with a search box. Typing narrows the list; choosing a country reports
 * it and closes the modal.
 */
module CountryPicker {
  import opened JsText
  import opened SeqUtil

  /** `Country`; the flag emoji is left out. */
  datatype Country = Country(code: String, name: String, dialCode: String)

  /**
   * The search test: the lower-cased query occurs in the lower-cased name or code, or the
   * query as typed occurs in the dial code.
   */
  predicate MatchesQuery(query: String, c: Country) {
    || Includes(ToLower(c.name), ToLower(query))
    || Includes(c.dialCode, query)
    || Includes(ToLower(c.code), ToLower(query))
  }

  function Matcher(query: String): Country -> bool {
    c => MatchesQuery(query, c)
  }

  /**
   * `filteredCountries`: the countries the search keeps, in their list order, each with
   * all its copies.
   */
  function FilteredCountries(countries: seq<Country>, query: String): (r: seq<Country>)
    ensures forall i :: 0 <= i < |r| ==> MatchesQuery(query, r[i])
    ensures forall c :: c in r <==> c in countries && MatchesQuery(query, c)
    ensures forall c :: MatchesQuery(query, c) ==> multiset(r)[c] == multiset(countries)[c]
    ensures IsSubsequence(r, countries)
  {
    var r := Filter(countries, Matcher(query));
    forall c ensures c in r <==> c in countries && MatchesQuery(query, c) {
      FilterMembership(countries, Matcher(query), c);
    }
    r
  }

  /** An empty search box shows every country. */
  lemma EmptyQueryKeepsAll(countries: seq<Country>)
    ensures FilteredCountries(countries, []) == countries
  {
    forall i | 0 <= i < |countries| ensures Matcher([])(countries[i]) {
      EmptyIsIncluded(ToLower(countries[i].name));
    }
    FilterKeepsAll(countries, Matcher([]));
  }

  /** A country that matches a query also matches every shorter start of it. */
  lemma MatchesShorterQuery(query: String, n: nat, c: Country)
    requires n <= |query| && MatchesQuery(query, c)
    ensures MatchesQuery(query[..n], c)
  {
    assert ToLower(query[..n]) == ToLower(query)[..n];
    if Includes(ToLower(c.name), ToLower(query)) {
      IncludesPiece(ToLower(c.name), ToLower(query), 0, n);
    } else if Includes(c.dialCode, query) {
      IncludesPiece(c.dialCode, query, 0, n);
    } else {
      IncludesPiece(ToLower(c.code), ToLower(query), 0, n);
    }
  }

  /** Typing more into the search box only removes countries from the list. */
  lemma TypingNarrowsResults(countries: seq<Country>, query: String, more: String)
    ensures forall c :: c in FilteredCountries(countries, query + more) ==> c in FilteredCountries(countries, query)
  {
    forall c | c in FilteredCountries(countries, query + more)
      ensures c in FilteredCountries(countries, query)
    {
      MatchesShorterQuery(query + more, |query|, c);
      assert (query + more)[..|query|] == query;
    }
  }

  /** The modal's state. */
  datatype Picker = Picker(open: bool, query: String)

  /** What choosing a country did: the picker afterwards and the country reported. */
  datatype Choice = Choice(picker: Picker, reported: Country)

  /** `handleCountrySelect`: the country is reported, the modal closes and the search clears. */
  function HandleCountrySelect(p: Picker, c: Country): (r: Choice)
    ensures r.reported == c
    ensures !r.picker.open && r.picker.query == []
  {
    Choice(Picker(false, []), c)
  }

  /** After a choice, reopening the picker shows the whole list again. */
  lemma ChoiceResetsSearch(countries: seq<Country>, p: Picker, c: Country)
    ensures FilteredCountries(countries, HandleCountrySelect(p, c).picker.query) == countries
  {
    EmptyQueryKeepsAll(countries);
  }

  /** Whether a row draws the checkmark: its code is the selected country's. */
  predicate ShowsCheckmark(selected: Country, item: Country) {
    selected.code == item.code
  }

  /** The chosen country's row carries the checkmark, and so does no row of another code. */
  lemma CheckmarkFollowsChoice(p: Picker, c: Country, item: Country)
    ensures ShowsCheckmark(HandleCountrySelect(p, c).reported, item) <==> item.code == c.code
  {
  }

  /**
   * In a list whose codes are distinct, the chosen country's row is the one row that
   * carries the checkmark.
   */
  lemma OneCheckmark(countries: seq<Country>, k: nat, p: Picker)
    requires k < |countries|
    requires forall i, j :: 0 <= i < j < |countries| ==> countries[i].code != countries[j].code
    ensures ShowsCheckmark(HandleCountrySelect(p, countries[k]).reported, countries[k])
    ensures forall i :: 0 <= i < |countries| && ShowsCheckmark(HandleCountrySelect(p, countries[k]).reported, countries[i]) ==> i == k
  {
  }
}
