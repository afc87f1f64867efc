/**
  Which catalog records are visible: the category filter (`matchesFilter`),
  the free-text search (`matchesSearch`) and the order-preserving filter
  step of `renderModels`. The page's globals `activeFilter` and
  `searchTerm` are the fields of a FilterState passed in.
 */
module Selection {
  import opened Text
  import opened Models
  import opened Filtering

  datatype FilterState = FilterState(activeFilter: string, searchTerm: string)

  /** The page's initial state: every category, no search term. */
  const InitialState := FilterState(AllFilter, "")

  const AllFilter := "all"
  const CodingFilter := "coding"
  /** The tag fragment that puts a record in the coding category. */
  const CoderFragment := "coder"

  /** Some tag, lower-cased, contains `needle`, as `tags.some(t => t.toLowerCase().includes(needle))`. */
  function SomeTagContains(tags: seq<string>, needle: string): (r: bool)
    ensures r <==> exists k :: 0 <= k < |tags| && IsSubstring(needle, ToLower(tags[k]))
  {
    if |tags| == 0 then false
    else if Contains(ToLower(tags[0]), needle) then true
    else
      var rest := SomeTagContains(tags[1..], needle);
      assert forall k :: 0 < k < |tags| ==> tags[k] == tags[1..][k - 1];
      rest
  }

  /** The category rule: `'all'` is a wildcard, `'coding'` is decided by the tags, any other id by the company. */
  function MatchesFilter(m: ModelRecord, filter: string): (b: bool)
    ensures filter == AllFilter ==> b
    ensures filter == CodingFilter ==>
      (b <==> exists k :: 0 <= k < |m.tags| && IsSubstring(CoderFragment, ToLower(m.tags[k])))
    ensures filter != AllFilter && filter != CodingFilter ==>
      (b <==> SameIgnoringCase(m.company, filter))
  {
    if filter == AllFilter then true
    else if filter == CodingFilter then SomeTagContains(m.tags, CoderFragment)
    else
      ToLowerEqualIff(m.company, filter);
      ToLower(m.company) == ToLower(filter)
  }

  /** The lower-cased `needle` occurs in the record's lower-cased name, company, description or some tag. */
  ghost predicate FoundIn(m: ModelRecord, needle: string)
  {
    || IsSubstring(needle, ToLower(m.name))
    || IsSubstring(needle, ToLower(m.company))
    || IsSubstring(needle, ToLower(m.description))
    || exists k :: 0 <= k < |m.tags| && IsSubstring(needle, ToLower(m.tags[k]))
  }

  /** The search rule: an empty term matches everything, any other term is a case-insensitive substring search. */
  function MatchesSearch(m: ModelRecord, term: string): (b: bool)
    ensures |term| == 0 ==> b
    ensures |term| > 0 ==> (b <==> FoundIn(m, ToLower(term)))
  {
    if |term| == 0 then true
    else
      var t := ToLower(term);
      || Contains(ToLower(m.name), t)
      || Contains(ToLower(m.company), t)
      || Contains(ToLower(m.description), t)
      || SomeTagContains(m.tags, t)
  }

  /** Both rules hold: the predicate the page's filter step applies to each record. */
  predicate Visible(m: ModelRecord, state: FilterState)
  {
    MatchesFilter(m, state.activeFilter) && MatchesSearch(m, state.searchTerm)
  }

  /** `models.filter(m => matchesFilter(m) && matchesSearch(m))`. */
  function SelectVisible(catalog: seq<ModelRecord>, state: FilterState): (r: seq<ModelRecord>)
    ensures |r| <= |catalog|
    ensures forall k :: 0 <= k < |r| ==> r[k] in catalog && Visible(r[k], state)
  {
    Keep(catalog, m => Visible(m, state))
  }

  /**
    The visible list is an order-preserving subsequence of the catalog that
    takes every position whose record is visible and no other.
   */
  lemma SelectVisibleIsOrderedSelection(catalog: seq<ModelRecord>, state: FilterState)
    returns (idx: seq<int>)
    ensures SelectsPositions(SelectVisible(catalog, state), catalog, idx)
    ensures forall i :: 0 <= i < |catalog| ==> (i in idx <==> Visible(catalog[i], state))
  {
    idx := KeepIsOrderedSelection(catalog, m => Visible(m, state));
  }

  /** A record is in the visible list exactly when it is in the catalog and visible. */
  lemma SelectVisibleMembership(catalog: seq<ModelRecord>, state: FilterState, m: ModelRecord)
    ensures m in SelectVisible(catalog, state) <==> m in catalog && Visible(m, state)
  {
    KeepMembership(catalog, m => Visible(m, state), m);
  }

  /** Nothing is visible exactly when no catalog record satisfies both rules. */
  lemma SelectVisibleEmptyIff(catalog: seq<ModelRecord>, state: FilterState)
    ensures |SelectVisible(catalog, state)| == 0 <==> forall i :: 0 <= i < |catalog| ==> !Visible(catalog[i], state)
  {
    if exists i :: 0 <= i < |catalog| && Visible(catalog[i], state) {
      var i :| 0 <= i < |catalog| && Visible(catalog[i], state);
      SelectVisibleMembership(catalog, state, catalog[i]);
    }
    var r := SelectVisible(catalog, state);
    if |r| > 0 {
      var i :| 0 <= i < |catalog| && catalog[i] == r[0];
      assert Visible(catalog[i], state);
    }
  }

  /** With every category and no search term, the whole catalog is visible, in order. */
  lemma SelectAllIsCatalog(catalog: seq<ModelRecord>)
    ensures SelectVisible(catalog, InitialState) == catalog
  {
    KeepAllAccepted(catalog, m => Visible(m, InitialState));
  }

  /** Filtering the visible list again changes nothing. */
  lemma SelectVisibleIdempotent(catalog: seq<ModelRecord>, state: FilterState)
    ensures SelectVisible(SelectVisible(catalog, state), state) == SelectVisible(catalog, state)
  {
    KeepIdempotent(catalog, m => Visible(m, state));
  }

  /** Extending the catalog by one record extends the selection by that record exactly when it is visible. */
  lemma SelectVisibleSnoc(catalog: seq<ModelRecord>, m: ModelRecord, state: FilterState)
    ensures SelectVisible(catalog + [m], state) == SelectVisible(catalog, state) + (if Visible(m, state) then [m] else [])
  {
    assert (catalog + [m])[..|catalog|] == catalog;
  }

  /** Selecting from two catalogs joined is joining the two selections. */
  lemma SelectVisibleAppend(a: seq<ModelRecord>, b: seq<ModelRecord>, state: FilterState)
    ensures SelectVisible(a + b, state) == SelectVisible(a, state) + SelectVisible(b, state)
  {
    KeepAppend(a, b, m => Visible(m, state));
  }

  /** The coding category is decided before the company: filter `'coding'` ignores the company. */
  lemma CodingIgnoresCompany(m: ModelRecord, company: string)
    ensures MatchesFilter(m, CodingFilter) == MatchesFilter(m.(company := company), CodingFilter)
  {
  }

  /**
    The two reserved ids shadow companies of the same spelling: a record
    whose company is "coding" and whose tags never mention "coder" is not
    selected by the id "coding", and the id "all" selects the record
    whatever its company is, "all" included.
   */
  lemma ReservedIdsShadowCompanies(m: ModelRecord)
    requires m.company == CodingFilter
    requires forall k :: 0 <= k < |m.tags| ==> !IsSubstring(CoderFragment, ToLower(m.tags[k]))
    ensures !MatchesFilter(m, CodingFilter)
    ensures forall c :: MatchesFilter(m.(company := c), AllFilter)
  {
  }

  /**
    A filter id naming a catalog record's company, in any letter case, shows
    that record while the search box is empty, unless the id is `coding`.
    The id `all` is no exception: it shows every record.
   */
  lemma CompanyFilterSelects(catalog: seq<ModelRecord>, m: ModelRecord, filter: string)
    requires m in catalog
    requires filter != CodingFilter
    requires SameIgnoringCase(m.company, filter)
    ensures m in SelectVisible(catalog, FilterState(filter, ""))
  {
    SelectVisibleMembership(catalog, FilterState(filter, ""), m);
  }
}
