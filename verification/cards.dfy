/**
  The card grid `renderModels` builds: the visible records, each projected
  to a card, or the single "no results" placeholder. DOM nodes, classes and
  inline styles are reduced to the values they display.
 */
module Cards {
  import opened Wrappers
  import opened Score
  import opened Models
  import opened Selection
  import Text

  /** The fixed company-to-colour table of the page. */
  const CompanyColours: map<string, string> := map[
    "OpenAI" := "#00FF41",
    "Anthropic" := "#8A2BE2",
    "Google" := "#00BFFF",
    "Mistral" := "#FF8C00",
    "Perplexity" := "#FF69B4",
    "Meta" := "#FFA500"]

  /** How many attribute entries a card shows. */
  const ShownAttributeCount := 4

  const NoResultsText := "No results found."

  /** One attribute bar: the entry's code as label, its score as bar width (percent) and as number. */
  datatype AttributeRow = AttributeRow(code: string, score: int)

  datatype Card = Card(
    name: string,
    company: string,
    companyColour: Option<string>,
    overall: int,
    overallColour: string,
    description: string,
    attributeRows: seq<AttributeRow>,
    tags: seq<string>)

  /** The grid's content after a render: the placeholder text, or one card per visible record. */
  datatype Grid = NoResults(message: string) | CardList(cards: seq<Card>)

  function Min(a: int, b: int): int
  {
    if a <= b then a else b
  }

  /**
    The colour set on a card's company line: the table's colour when the
    company is a key of the table, otherwise None (the stylesheet's colour
    stays). The lookup is by exact spelling.
   */
  function CompanyColour(company: string): (c: Option<string>)
    ensures c.Some? <==> company in CompanyColours
    ensures c.Some? ==> c.value == CompanyColours[company]
  {
    if company in CompanyColours then Some(CompanyColours[company]) else None
  }

  /**
    The colour lookup is by exact spelling while the company filter ignores
    case: a record whose company is spelled "openai" is selected by the
    OpenAI filter yet keeps the stylesheet's colour.
   */
  lemma CompanyColourExactSpelling(m: ModelRecord)
    requires m.company == "openai"
    ensures CompanyColour(m.company).None?
    ensures CompanyColour("OpenAI") == Some("#00FF41")
    ensures MatchesFilter(m, "OpenAI")
  {
    Text.ToLowerEqualIff(m.company, "OpenAI");
    assert "openai"[0] != "OpenAI"[0];
  }

  /** `Object.entries(attributes).slice(0, 4)`: the first four entries, in `Object.entries` order. */
  function ShownAttributes(attributes: seq<AttributeEntry>): (r: seq<AttributeEntry>)
    ensures |r| == Min(ShownAttributeCount, |attributes|)
    ensures r <= attributes
  {
    if |attributes| <= ShownAttributeCount then attributes else attributes[..ShownAttributeCount]
  }

  /** Entries after the fourth never reach a card. */
  lemma ShownAttributesIgnoresTail(a: seq<AttributeEntry>, b: seq<AttributeEntry>)
    requires |a| >= ShownAttributeCount
    ensures ShownAttributes(a + b) == ShownAttributes(a)
  {
    assert (a + b)[..ShownAttributeCount] == a[..ShownAttributeCount];
  }

  function RowOf(e: AttributeEntry): AttributeRow
  {
    AttributeRow(e.code, e.score)
  }

  /** The card built for one record. */
  function BuildCard(m: ModelRecord): (c: Card)
    ensures c.name == m.name && c.company == m.company && c.description == m.description
    ensures c.companyColour.Some? <==> m.company in CompanyColours
    ensures c.companyColour.Some? ==> c.companyColour.value == CompanyColours[m.company]
    ensures c.overall == m.overall
    ensures c.overallColour == ScoreColour(m.overall)
    ensures |c.attributeRows| == Min(ShownAttributeCount, |m.attributes|)
    ensures forall k :: 0 <= k < |c.attributeRows| ==>
      c.attributeRows[k].code == m.attributes[k].code && c.attributeRows[k].score == m.attributes[k].score
    ensures c.tags == m.tags
  {
    var shown := ShownAttributes(m.attributes);
    Card(m.name, m.company, CompanyColour(m.company), m.overall, ScoreColour(m.overall), m.description,
         seq(|shown|, k requires 0 <= k < |shown| => RowOf(shown[k])), m.tags)
  }

  /** Every bar of a card built from a valid record has a width within 0..100 percent. */
  lemma BarsWithinScale(m: ModelRecord)
    requires ValidRecord(m)
    ensures forall k :: 0 <= k < |BuildCard(m).attributeRows| ==> InScoreRange(BuildCard(m).attributeRows[k].score)
  {
  }

  /** The filter step of `renderModels`, front to back over the catalog. */
  method FilterCatalog(catalog: seq<ModelRecord>, state: FilterState) returns (filtered: seq<ModelRecord>)
    ensures filtered == SelectVisible(catalog, state)
  {
    filtered := [];
    var i := 0;
    while i < |catalog|
      invariant 0 <= i <= |catalog|
      invariant filtered == SelectVisible(catalog[..i], state)
    {
      assert catalog[..i + 1] == catalog[..i] + [catalog[i]];
      SelectVisibleSnoc(catalog[..i], catalog[i], state);
      if Visible(catalog[i], state) {
        filtered := filtered + [catalog[i]];
      }
      i := i + 1;
    }
    assert catalog[..i] == catalog;
  }

  /** One card per record, in the records' order. */
  method BuildCards(records: seq<ModelRecord>) returns (cards: seq<Card>)
    ensures |cards| == |records|
    ensures forall k :: 0 <= k < |records| ==> cards[k] == BuildCard(records[k])
  {
    cards := [];
    var j := 0;
    while j < |records|
      invariant 0 <= j <= |records|
      invariant |cards| == j
      invariant forall k :: 0 <= k < j ==> cards[k] == BuildCard(records[k])
    {
      cards := cards + [BuildCard(records[j])];
      j := j + 1;
    }
  }

  /**
    `renderModels`: filters the catalog, then builds a card for each visible
    record; an empty selection gives the placeholder instead.
   */
  method RenderModels(catalog: seq<ModelRecord>, state: FilterState) returns (grid: Grid)
    ensures grid.NoResults? <==> forall i :: 0 <= i < |catalog| ==> !Visible(catalog[i], state)
    ensures grid.NoResults? ==> grid.message == NoResultsText
    ensures grid.CardList? ==>
      && |grid.cards| == |SelectVisible(catalog, state)|
      && forall k :: 0 <= k < |grid.cards| ==> grid.cards[k] == BuildCard(SelectVisible(catalog, state)[k])
  {
    var filtered := FilterCatalog(catalog, state);
    SelectVisibleEmptyIff(catalog, state);
    if |filtered| == 0 {
      return NoResults(NoResultsText);
    }
    var cards := BuildCards(filtered);
    grid := CardList(cards);
  }
}
