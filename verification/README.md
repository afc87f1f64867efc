# AI Model Arena: selection, cards and rating session

This project models the logic inside `docs/script.js`, the only script of the
AI Model Arena demo page. It proves properties of that model in Dafny. The page
does four things worth modelling:

- It colours every 0-100 score by one of four tiers (`getScoreColor`).
- It shows the catalog records that pass a category filter (`matchesFilter`)
  and a free-text search (`matchesSearch`). The filter step of `renderModels`
  keeps the catalog's order.
- It turns each visible record into a card. A card shows the first four
  attribute entries and a company colour when the company has one. An empty
  selection shows the "No results found." placeholder instead.
- It runs a rating modal (`openRatingModal`). The modal holds a draft of eight
  rubric scores, all starting at 50, plus a review. Submitting emits the draft.
  Cancel, the close button and a click on the backdrop discard it.

The page's globals `activeFilter` and `searchTerm` are the two fields of a
`FilterState` value, passed in as a parameter. Lower-casing is an explicit
ASCII-only `ToLower`. `includes` is an explicit substring test, `Contains`, and
it is proved equal to "there is a position where the needle occurs".

Modules, one per part of the script:

- `Text` (text.dfy): `LowerChar`, `ToLower`, `Contains`, and case-insensitive equality.
- `Score` (score.dfy): the four tiers and their colours.
- `Models` (models.dfy): `ModelRecord` and its validity predicates.
- `Filtering` (filtering.dfy): `Array.prototype.filter` as `Keep`, with its
  order and membership lemmas.
- `Selection` (selection.dfy): `FilterState`, the two rules, and `SelectVisible`.
- `Cards` (cards.dfy): the card projection and `RenderModels` with its loops.
- `Rating` (rating.dfy): the rubric, the draft, and the modal as a step
  function over page events. Emitted submissions are return values.
- `SampleCatalog` (sample_catalog.dfy): the six seeded records, used as a
  concrete instance.
- `Wrappers` (wrappers.dfy): `Option`.

Some behaviour of the code is easy to misread, so it is stated here:

- A submission carries the model's **name**, which is what the submit handler
  logs (`docs/script.js:568`).
- A card shows the **full** description. The script does not truncate it.
- The rule "a category equal to the record's company selects it" holds for
  every id except `coding`. The id `coding` is checked before the company
  comparison, so a record whose company is spelled `coding` is selected by it
  only when one of its tags contains "coder". The id `all` selects every
  record, so a company spelled `all` is selected by it too.
  `Selection.ReservedIdsShadowCompanies` and `Selection.CompanyFilterSelects`
  show this.
- A slider event on a closed modal changes nothing. So does a review edit or a
  submit. Clearing `modalRoot` removes those controls, so their handlers can
  never fire.

## Model

| member | source | states |
|---|---|---|
| Text.LowerChar | docs/script.js:213 | Lower-casing one character gives a character that is never an ASCII capital. A capital becomes the same letter in lower case. Any other character is unchanged. |
| Text.ToLower | docs/script.js:220-225 | ASCII lower-casing keeps the length and lower-cases every position independently. |
| Text.Contains | docs/script.js:222-225 | `includes` is true exactly when the needle occurs at some position of the haystack. |
| Text.ToLowerEqualIff | docs/script.js:215 | Comparing two lower-cased strings is the same as comparing them character by character ignoring case, in both directions. |
| Text.ToLowerIdempotent | docs/script.js:220 | Lower-casing an already lower-cased term changes nothing. |
| Text.EmptyAlwaysContained | docs/script.js:219-225 | The empty needle is contained in every string, so the early return for an empty term agrees with the general test. |
| Score.ScoreTier | docs/script.js:24-29 | The tiers split the integers in four: 80 and above, 60-79, 40-59, and below 40. |
| Score.ScoreColour | docs/script.js:24-29 | Both identical copies of `getScoreColor`, the one the cards use (script.js:24-29, called at script.js:270) and the one the modal's sliders use (script.js:443-448), return one of the four tier colours: green exactly from 80 up, blue exactly for 60-79, orange exactly for 40-59 and purple exactly below 40. |
| Score.TierMonotone | docs/script.js:24-29 | A higher score never gets a lower tier. |
| Score.ColourDeterminesTier | docs/script.js:24-29 | Two scores get the same colour exactly when they are in the same tier, because the four colours differ. |
| Score.TierIsInterval | docs/script.js:24-29 | Every score between two scores of one tier is in that tier. |
| Selection.SomeTagContains | docs/script.js:213 | `tags.some(t => t.toLowerCase().includes(x))` holds exactly when some lower-cased tag contains x. |
| Selection.MatchesFilter | docs/script.js:210-216 | `'all'` accepts every record. `'coding'` accepts exactly the records with a tag containing "coder" in any case. Any other id accepts exactly the records whose company equals the id ignoring case. |
| Selection.MatchesSearch | docs/script.js:218-227 | An empty term accepts everything. Otherwise a record is accepted exactly when the lower-cased term occurs in its lower-cased name, company, description or some tag. |
| Selection.SelectVisible | docs/script.js:231 | Every visible record comes from the catalog and passes both rules. The result is no longer than the catalog. |
| Selection.SelectVisibleIsOrderedSelection | docs/script.js:231 | The visible list takes catalog positions in increasing order. It takes every position whose record passes both rules, and no other. |
| Selection.SelectVisibleMembership | docs/script.js:231 | A record is visible exactly when it is in the catalog and passes both rules. |
| Selection.SelectVisibleEmptyIff | docs/script.js:231-232 | The visible list is empty exactly when no catalog record passes both rules. |
| Selection.SelectAllIsCatalog | docs/script.js:184-185 | With the initial state (`'all'`, empty term), the visible list is the whole catalog in order. |
| Selection.SelectVisibleIdempotent | docs/script.js:231 | Filtering the visible list again gives the same list. |
| Selection.SelectVisibleSnoc | docs/script.js:231 | Appending one record to the catalog appends it to the visible list exactly when it passes both rules. |
| Selection.SelectVisibleAppend | docs/script.js:231 | Filtering two catalogs joined gives the two filtered lists joined. |
| Selection.CodingIgnoresCompany | docs/script.js:212-213 | Under `'coding'` the company plays no part: the tag test decides before any company comparison. |
| Selection.ReservedIdsShadowCompanies | docs/script.js:211-213 | A record whose company is spelled `coding` and none of whose tags contains "coder" in any case is not selected by the id `coding`. The id `all` selects the record whatever its company, `all` included. |
| Selection.CompanyFilterSelects | docs/script.js:210-231 | With an empty term, a catalog record whose company equals the filter id ignoring case is in the visible list, for every id except `coding` (`all` included). |
| Filtering.Keep | docs/script.js:231 | `filter` keeps only accepted elements of its input and never lengthens it. |
| Filtering.KeepIsOrderedSelection | docs/script.js:231 | `filter` keeps the accepted positions, in increasing order, and only those. |
| Filtering.KeepMembership | docs/script.js:231 | An element survives `filter` exactly when it is in the input and accepted. |
| Filtering.KeepAllAccepted | docs/script.js:231 | If every element is accepted, `filter` returns its input unchanged. |
| Filtering.KeepIdempotent | docs/script.js:231 | Applying `filter` twice with one predicate is applying it once. |
| Filtering.KeepAppend | docs/script.js:231 | `filter` distributes over concatenation. |
| Cards.CompanyColour | docs/script.js:254-256 | A colour is set exactly when the company is a key of the colour table, and it is that key's colour. Otherwise nothing is set and the stylesheet's colour stays. |
| Cards.CompanyColourExactSpelling | docs/script.js:13-20 | The colour table is matched by exact spelling. A company spelled "openai" passes the OpenAI filter but gets no colour. |
| Cards.ShownAttributes | docs/script.js:288 | A card shows min(4, n) attribute entries, and they are a prefix of the entries in `Object.entries` order. |
| Cards.ShownAttributesIgnoresTail | docs/script.js:288 | Entries after the fourth never change what a card shows. |
| Cards.BuildCard | docs/script.js:239-320 | A card shows the record's name, company, description, overall score and full tag list. The score is coloured by its tier. A company colour is set exactly when the company is a key of the colour table, and it is that key's colour. Row k of the attribute bars is entry k's code and score, for the first min(4, n) entries. |
| Cards.BarsWithinScale | docs/script.js:299 | For a valid record every bar width is a percentage in 0..100. |
| Cards.FilterCatalog | docs/script.js:231 | The front-to-back filter loop computes exactly the visible list. |
| Cards.BuildCards | docs/script.js:239-342 | The card loop builds one card per visible record, in order. |
| Cards.RenderModels | docs/script.js:229-343 | The render gives the placeholder "No results found." exactly when no record passes both rules. Otherwise it gives one card per visible record, in catalog order. |
| Rating.InitRatings | docs/script.js:436-440 | Setting each rubric id to 50 in turn yields a map whose keys are exactly the rubric's codes, every value 50. |
| Rating.OpenDraft | docs/script.js:426-440 | A fresh draft has exactly the rubric codes as keys, each at 50, and an empty review. |
| Rating.RubricCodesListed | docs/script.js:426-435 | The rubric's codes are RL, CG, KI, AL, ES, SA, TU and CE. |
| Rating.RubricCodesAreEight | docs/script.js:426-435 | There are exactly eight rubric codes and every code is among them. |
| Rating.SetRating | docs/script.js:527-531 | A slider input sets its own code to the new value. Every other code and the review are unchanged. |
| Rating.SetReview | docs/script.js:548-551 | Typing in the textarea replaces the review and leaves every score unchanged. |
| Rating.SliderColour | docs/script.js:514-519 | A slider and its number show green exactly when the slider's value is 80 or more, blue exactly for 60-79, orange exactly for 40-59 and purple exactly below 40. |
| Rating.SliderColourFollowsValue | docs/script.js:514-520 | After a slider moves, its colour is the tier colour of the new value. Every other slider keeps its colour. |
| Rating.Step | docs/script.js:420-595 | Something is emitted exactly on Submit with a modal open, and it is the target's name with the current scores and review. Opening replaces any modal with a fresh draft. Submit, Cancel, the close button and a backdrop click close the modal. A click inside the content changes nothing. |
| Rating.StepPreservesValid | docs/script.js:509-551 | Every event the page's controls allow keeps the draft valid: exactly the eight codes, scores in 1..100, review at most 5000 characters. Every emitted submission is valid in the same sense. |
| Rating.Run | docs/script.js:566-582 | Over any sequence of events there is at most one submission per Submit. From a valid session, every submission has the eight codes, scores in 1..100 and a review of at most 5000 characters. |
| Rating.RateAndSubmit | docs/script.js:527-571 | Opening, moving Reasoning & Logic to 87 and submitting emits one submission. It has RL at 87, the other seven codes at 50, the model's name and an empty review, and the modal ends closed. |
| Rating.RateAndCancel | docs/script.js:580-582 | Opening, moving a slider and cancelling emits nothing and leaves the modal closed. |
| SampleCatalog.EntriesValid | docs/script.js:42-51 | The seeded attribute objects have eight distinct codes, with scores in range when given in range. |
| SampleCatalog.CatalogIsValid | docs/script.js:31-164 | The six seeded records have scores in 0..100, distinct attribute codes and distinct ids. |
| SampleCatalog.InitialRenderShowsCatalog | docs/script.js:351-353 | The first render shows all six seeded records, in order. |
| SampleCatalog.NameHitMatches | docs/script.js:222 | A term found in the name, ignoring case, is enough for the search rule. |
| SampleCatalog.SearchFindsClaude | docs/script.js:218-231 | Under `all`, any term that lower-cases to "claude" selects exactly Claude 4 Sonnet out of the six seeded records. |
| SampleCatalog.SearchUpperClaude | docs/script.js:218-231 | The term "CLAUDE" selects exactly Claude 4 Sonnet. |
| SampleCatalog.AnthropicSonnetFindsClaude | docs/script.js:210-231 | The Anthropic filter with any term that lower-cases to "sonnet" selects exactly Claude 4 Sonnet. |
| SampleCatalog.OpenAiSonnetFindsNothing | docs/script.js:210-231 | The OpenAI filter with any term that lower-cases to "sonnet" selects nothing: ChatGPT's texts never contain "nn", and every other record has another company. |
| SampleCatalog.OpenAiSonnetRendersPlaceholder | docs/script.js:229-237 | The OpenAI filter with the term "sonnet" renders the "No results found." placeholder. |
| SampleCatalog.GeminiIsCoding | docs/script.js:96 | The "Coder" tag puts Gemini 2.5 Pro in the coding category. |

## Left out

- DOM construction, CSS classes, inline styles and slider gradient strings are left out. They are presentation. The model keeps only the values a card or slider displays.
- The background-music toggle is left out. It wraps a media API and swallows its errors.
- `alert` and `console.log` are left out. The "View Details" button only alerts. A submission is the value `Step` returns, not a log line.
- The filter buttons' `active` class (`renderFilters`) is left out. It is display only, and the filter id itself is the `activeFilter` field.
- The slider range 1..100, `parseInt` of the slider value, and the textarea's `maxLength` of 5000 are browser-enforced. They are a precondition (`BrowserAllows`), not modelled behaviour.
- The review's character counter is left out. It is display only.
- `Text.ToLower`: lower-cases ASCII letters only. JavaScript's `toLowerCase` also maps non-ASCII letters, and none of the page's data needs that.
- `Text.ToLower`: keeps the length, which JavaScript's `toLowerCase` does not always do. Some mappings lengthen a string; `'\u0130'.toLowerCase()` has two code units. The model has no such mapping, so its length property holds only for its own ASCII lower-casing.
- `Text.ToLower`: a Dafny `string` is a sequence of Unicode scalar values, while a JavaScript string is a sequence of UTF-16 code units. Lone surrogates, which JavaScript strings may hold, cannot be written in the model, and a character outside the Basic Multilingual Plane is one position here but two code units there.
- `Rating.SetReview`: the bound of 5000 (`MaxReviewLength`) counts Unicode scalar values. The textarea's `maxLength` (script.js:551) and the character counter (script.js:561) count UTF-16 code units, so a review of 5000 characters outside the Basic Multilingual Plane passes `BrowserAllows` here but is 10000 code units on the page, which the browser would stop at 2500 such characters.
- `Cards.CompanyColour`: treats "has a colour" as "is a key of the table". In JavaScript the lookup also finds inherited properties such as `constructor`, and the browser then ignores the invalid colour.
- `Selection.MatchesSearch`: the search term is the raw input value, so a term of spaces is searched for literally. The model does the same, and the lemmas do not single that case out.
- `Cards.ShownAttributes`: the attribute sequence stands for what `Object.entries` yields. For keys that look like integers, JavaScript lists those first in ascending numeric order. The model takes the sequence as given and does not reorder such keys. The page's keys are all two-letter codes, which keep the order they were written in.
- Rating rubric codes are an eight-value enumeration rather than the page's two-letter strings. Each constructor is named after its string.
