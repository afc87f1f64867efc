/**
  The rating modal opened by a card's "Rate Model" button
  (`openRatingModal`), as a session driven by the page's events. The
  `ratings` object becomes a draft map from rubric code to score; the
  console log of a submission becomes an emitted value.
 */
module Rating {
  import opened Wrappers
  import opened Score
  import opened Models

  /** The keys of the rating rubric; the page uses the same two-letter strings as object keys. */
  datatype RubricCode = RL | CG | KI | AL | ES | SA | TU | CE

  /** One category of the fixed rating rubric. */
  datatype RubricItem = RubricItem(code: RubricCode, name: string, description: string)

  /** The eight rubric categories, in the order the modal lists them. */
  const Rubric: seq<RubricItem> := [
    RubricItem(RL, "Reasoning & Logic", "Problem solving and logical thinking"),
    RubricItem(CG, "Creativity & Generation", "Novel and imaginative outputs"),
    RubricItem(KI, "Knowledge & Information", "Information access and synthesis"),
    RubricItem(AL, "Adaptability & Learning", "Adjusting to new information"),
    RubricItem(ES, "Efficiency & Speed", "Processing speed and resource efficiency"),
    RubricItem(SA, "Safety & Alignment", "Ethical guidelines and human values"),
    RubricItem(TU, "Tool Use & Integration", "External tools and API usage"),
    RubricItem(CE, "Communication & Empathy", "Clear and contextual communication")]

  /** The codes the rubric rates, the keys of every draft. */
  const RubricCodes: set<RubricCode> := CodesOf(Rubric)

  /** Every slider starts at the midpoint. */
  const MidpointRating := 50
  /** The slider's `min` and `max`. */
  const MinRating := 1
  const MaxRating := 100
  /** The review textarea's `maxLength`, counted here in characters rather than UTF-16 code units. */
  const MaxReviewLength := 5000

  function CodesOf(items: seq<RubricItem>): set<RubricCode>
  {
    if |items| == 0 then {} else CodesOf(items[..|items| - 1]) + {items[|items| - 1].code}
  }

  /** `ratings[attr.id] = 50` for each rubric item in turn, starting from an empty object. */
  function InitRatings(items: seq<RubricItem>): (r: map<RubricCode, int>)
    ensures r.Keys == CodesOf(items)
    ensures forall c :: c in r ==> r[c] == MidpointRating
  {
    if |items| == 0 then map[]
    else
      var front := items[..|items| - 1];
      InitRatings(front)[items[|items| - 1].code := MidpointRating]
  }

  /** The in-progress rating: a score per rubric code and the review text. */
  datatype RatingDraft = RatingDraft(ratings: map<RubricCode, int>, review: string)

  /** The draft a freshly opened modal holds: all eight codes at the midpoint, no review. */
  function OpenDraft(): (d: RatingDraft)
    ensures d.ratings.Keys == RubricCodes
    ensures forall c :: c in d.ratings ==> d.ratings[c] == MidpointRating
    ensures d.review == ""
  {
    RatingDraft(InitRatings(Rubric), "")
  }

  /** The codes of a list of items, extended by one more item. */
  lemma CodesOfSnoc(items: seq<RubricItem>, n: nat)
    requires 0 < n <= |items|
    ensures CodesOf(items[..n]) == CodesOf(items[..n - 1]) + {items[n - 1].code}
  {
    assert items[..n][..n - 1] == items[..n - 1];
  }

  /** The rubric lists the codes RL, CG, KI, AL, ES, SA, TU and CE. */
  lemma RubricCodesListed()
    ensures RubricCodes == {RL, CG, KI, AL, ES, SA, TU, CE}
  {
    var p := Rubric;
    assert p[..0] == [];
    CodesOfSnoc(p, 1);
    CodesOfSnoc(p, 2);
    CodesOfSnoc(p, 3);
    CodesOfSnoc(p, 4);
    CodesOfSnoc(p, 5);
    CodesOfSnoc(p, 6);
    CodesOfSnoc(p, 7);
    CodesOfSnoc(p, 8);
    assert p[..8] == p;
  }

  /** Every code is rated, and there are eight of them. */
  lemma RubricCodesAreEight()
    ensures |RubricCodes| == 8
    ensures forall c: RubricCode :: c in RubricCodes
  {
    RubricCodesListed();
    forall c: RubricCode
      ensures c in RubricCodes
    {
      assert c.RL? || c.CG? || c.KI? || c.AL? || c.ES? || c.SA? || c.TU? || c.CE?;
    }
  }

  /** A slider's input handler: `ratings[attr.id] = val`. */
  function SetRating(d: RatingDraft, code: RubricCode, value: int): (r: RatingDraft)
    requires MinRating <= value <= MaxRating
    ensures r.ratings.Keys == d.ratings.Keys + {code}
    ensures r.ratings[code] == value
    ensures forall c :: c in d.ratings && c != code ==> r.ratings[c] == d.ratings[c]
    ensures r.review == d.review
  {
    d.(ratings := d.ratings[code := value])
  }

  /** Typing in the review textarea, which the browser keeps within its maximum length. */
  function SetReview(d: RatingDraft, text: string): (r: RatingDraft)
    requires |text| <= MaxReviewLength
    ensures r.ratings == d.ratings
    ensures r.review == text
  {
    d.(review := text)
  }

  /** The colour a slider and its number show for its current value (`updateSliderAppearance`). */
  function SliderColour(d: RatingDraft, code: RubricCode): (c: string)
    requires code in d.ratings
    ensures c == TopColour <==> 80 <= d.ratings[code]
    ensures c == HighColour <==> 60 <= d.ratings[code] < 80
    ensures c == MidColour <==> 40 <= d.ratings[code] < 60
    ensures c == LowColour <==> d.ratings[code] < 40
  {
    ScoreColour(d.ratings[code])
  }

  /** Moving one slider recolours that slider by its new value and leaves the other sliders' colours as they were. */
  lemma SliderColourFollowsValue(d: RatingDraft, code: RubricCode, value: int, other: RubricCode)
    requires MinRating <= value <= MaxRating
    requires other in d.ratings && other != code
    ensures SliderColour(SetRating(d, code, value), code) == ScoreColour(value)
    ensures SliderColour(SetRating(d, code, value), other) == SliderColour(d, other)
  {
  }

  /** The modal is either absent or open on one record with one draft. */
  datatype Session = Closed | Open(target: ModelRecord, draft: RatingDraft)

  /** What a submission hands to the sink: the rated model's name, the scores and the review. */
  datatype Submission = Submission(modelName: string, ratings: map<RubricCode, int>, review: string)

  datatype Event =
    | RateClicked(model: ModelRecord)
    | SliderMoved(code: RubricCode, value: int)
    | ReviewTyped(text: string)
    | SubmitPressed
    | CancelPressed
    | ClosePressed
    | OverlayClicked(onBackdrop: bool)

  datatype StepResult = StepResult(session: Session, emitted: Option<Submission>)

  /** What the page's controls can produce: a slider stays in 1..100, the textarea stops at 5000 characters. */
  predicate BrowserAllows(ev: Event)
  {
    match ev
    case SliderMoved(_, value) => MinRating <= value <= MaxRating
    case ReviewTyped(text) => |text| <= MaxReviewLength
    case _ => true
  }

  /** The events that close the modal without emitting: Cancel, the close button, and a click on the backdrop itself. */
  predicate Discards(ev: Event)
  {
    ev.CancelPressed? || ev.ClosePressed? || (ev.OverlayClicked? && ev.onBackdrop)
  }

  /**
    One event. Opening replaces whatever modal is there; with no modal
    open, the modal's controls do not exist, so their events change nothing.
   */
  function Step(s: Session, ev: Event): (o: StepResult)
    requires BrowserAllows(ev)
    ensures o.emitted.Some? <==> s.Open? && ev.SubmitPressed?
    ensures o.emitted.Some? ==> o.emitted.value == Submission(s.target.name, s.draft.ratings, s.draft.review)
    ensures ev.RateClicked? ==> o.session == Open(ev.model, OpenDraft())
    ensures s.Open? && (ev.SubmitPressed? || Discards(ev)) ==> o.session == Closed
    ensures s.Closed? && !ev.RateClicked? ==> o.session == Closed
    ensures s.Open? && ev.OverlayClicked? && !ev.onBackdrop ==> o.session == s
    ensures s.Open? && ev.SliderMoved? ==> o.session == Open(s.target, SetRating(s.draft, ev.code, ev.value))
    ensures s.Open? && ev.ReviewTyped? ==> o.session == Open(s.target, SetReview(s.draft, ev.text))
  {
    match ev
    case RateClicked(m) => StepResult(Open(m, OpenDraft()), None)
    case SliderMoved(code, value) =>
      if s.Closed? then StepResult(Closed, None)
      else StepResult(Open(s.target, SetRating(s.draft, code, value)), None)
    case ReviewTyped(text) =>
      if s.Closed? then StepResult(Closed, None)
      else StepResult(Open(s.target, SetReview(s.draft, text)), None)
    case SubmitPressed =>
      if s.Closed? then StepResult(Closed, None)
      else StepResult(Closed, Some(Submission(s.target.name, s.draft.ratings, s.draft.review)))
    case CancelPressed => StepResult(Closed, None)
    case ClosePressed => StepResult(Closed, None)
    case OverlayClicked(onBackdrop) => StepResult(if onBackdrop then Closed else s, None)
  }

  /** A draft as the page's controls can leave it: exactly the rubric codes, each in 1..100, and a bounded review. */
  predicate ValidDraft(d: RatingDraft)
  {
    && d.ratings.Keys == RubricCodes
    && (forall c :: c in d.ratings ==> MinRating <= d.ratings[c] <= MaxRating)
    && |d.review| <= MaxReviewLength
  }

  predicate ValidSession(s: Session)
  {
    s.Open? ==> ValidDraft(s.draft)
  }

  predicate ValidSubmission(sub: Submission)
  {
    ValidDraft(RatingDraft(sub.ratings, sub.review))
  }

  /** Every event the page allows keeps the session valid, and what it emits is valid. */
  lemma StepPreservesValid(s: Session, ev: Event)
    requires BrowserAllows(ev)
    ensures ValidSession(s) ==> ValidSession(Step(s, ev).session)
    ensures ValidSession(s) && Step(s, ev).emitted.Some? ==> ValidSubmission(Step(s, ev).emitted.value)
  {
    RubricCodesAreEight();
  }

  function CountSubmits(evs: seq<Event>): nat
  {
    if |evs| == 0 then 0 else (if evs[0].SubmitPressed? then 1 else 0) + CountSubmits(evs[1..])
  }

  datatype RunResult = RunResult(session: Session, emitted: seq<Submission>)

  predicate AllAllowed(evs: seq<Event>)
  {
    forall k :: 0 <= k < |evs| ==> BrowserAllows(evs[k])
  }

  /**
    A sequence of events from a given session: the session it ends in and
    every submission emitted on the way, in order. Starting from a valid
    session, only valid submissions are emitted, at most one per Submit.
   */
  function Run(s: Session, evs: seq<Event>): (r: RunResult)
    requires AllAllowed(evs)
    decreases |evs|
    ensures |r.emitted| <= CountSubmits(evs)
    ensures ValidSession(s) ==> ValidSession(r.session)
    ensures ValidSession(s) ==> forall k :: 0 <= k < |r.emitted| ==> ValidSubmission(r.emitted[k])
  {
    if |evs| == 0 then RunResult(s, [])
    else
      var o := Step(s, evs[0]);
      var rest := Run(o.session, evs[1..]);
      StepPreservesValid(s, evs[0]);
      RunResult(rest.session, (if o.emitted.Some? then [o.emitted.value] else []) + rest.emitted)
  }

  /** Running a first event and then the rest is the step followed by the run of the rest. */
  lemma RunFirst(s: Session, ev: Event, rest: seq<Event>)
    requires BrowserAllows(ev) && AllAllowed(rest)
    ensures AllAllowed([ev] + rest)
    ensures
      var o := Step(s, ev);
      var r := Run(o.session, rest);
      Run(s, [ev] + rest) == RunResult(r.session, (if o.emitted.Some? then [o.emitted.value] else []) + r.emitted)
  {
    var evs := [ev] + rest;
    assert evs[0] == ev && evs[1..] == rest;
  }

  /** Opening the modal and then running the rest is running the rest on a fresh draft. */
  lemma OpenThenRun(m: ModelRecord, rest: seq<Event>)
    requires AllAllowed(rest)
    ensures AllAllowed([RateClicked(m)] + rest)
    ensures Run(Closed, [RateClicked(m)] + rest) == Run(Open(m, OpenDraft()), rest)
  {
    RunFirst(Closed, RateClicked(m), rest);
  }

  /** Moving a slider on an open modal and then running the rest is running the rest on the updated draft. */
  lemma SlideThenRun(m: ModelRecord, d: RatingDraft, code: RubricCode, value: int, rest: seq<Event>)
    requires MinRating <= value <= MaxRating && AllAllowed(rest)
    ensures AllAllowed([SliderMoved(code, value)] + rest)
    ensures Run(Open(m, d), [SliderMoved(code, value)] + rest) == Run(Open(m, SetRating(d, code, value)), rest)
  {
    RunFirst(Open(m, d), SliderMoved(code, value), rest);
    assert Run(Open(m, SetRating(d, code, value)), rest).emitted == [] + Run(Open(m, SetRating(d, code, value)), rest).emitted;
  }

  /** Submitting an open modal as the last event emits its draft under the model's name and closes it. */
  lemma SubmitLast(m: ModelRecord, d: RatingDraft)
    ensures Run(Open(m, d), [SubmitPressed]) == RunResult(Closed, [Submission(m.name, d.ratings, d.review)])
  {
    RunFirst(Open(m, d), SubmitPressed, []);
    assert Run(Closed, []) == RunResult(Closed, []);
  }

  /** Cancelling an open modal as the last event emits nothing and closes it. */
  lemma CancelLast(m: ModelRecord, d: RatingDraft)
    ensures Run(Open(m, d), [CancelPressed]) == RunResult(Closed, [])
  {
    RunFirst(Open(m, d), CancelPressed, []);
    assert Run(Closed, []) == RunResult(Closed, []);
  }

  /** Opening, moving "Reasoning & Logic" to 87 and submitting emits RL at 87 and the other seven codes at 50. */
  lemma RateAndSubmit(m: ModelRecord)
    ensures
      var r := Run(Closed, [RateClicked(m), SliderMoved(RL, 87), SubmitPressed]);
      && r.session == Closed
      && |r.emitted| == 1
      && r.emitted[0].modelName == m.name
      && r.emitted[0].ratings.Keys == RubricCodes
      && RL in r.emitted[0].ratings && r.emitted[0].ratings[RL] == 87
      && (forall c :: c in RubricCodes && c != RL ==> r.emitted[0].ratings[c] == MidpointRating)
      && r.emitted[0].review == ""
  {
    var d0 := OpenDraft();
    var d := SetRating(d0, RL, 87);
    SubmitLast(m, d);
    SlideThenRun(m, d0, RL, 87, [SubmitPressed]);
    assert [SliderMoved(RL, 87)] + [SubmitPressed] == [SliderMoved(RL, 87), SubmitPressed];
    OpenThenRun(m, [SliderMoved(RL, 87), SubmitPressed]);
    assert [RateClicked(m)] + [SliderMoved(RL, 87), SubmitPressed] == [RateClicked(m), SliderMoved(RL, 87), SubmitPressed];
  }

  /** Cancelling after moving a slider emits nothing and closes the modal. */
  lemma RateAndCancel(m: ModelRecord, code: RubricCode, value: int)
    requires MinRating <= value <= MaxRating
    ensures
      var r := Run(Closed, [RateClicked(m), SliderMoved(code, value), CancelPressed]);
      r.session == Closed && r.emitted == []
  {
    var d0 := OpenDraft();
    CancelLast(m, SetRating(d0, code, value));
    SlideThenRun(m, d0, code, value, [CancelPressed]);
    assert [SliderMoved(code, value)] + [CancelPressed] == [SliderMoved(code, value), CancelPressed];
    OpenThenRun(m, [SliderMoved(code, value), CancelPressed]);
    assert [RateClicked(m)] + [SliderMoved(code, value), CancelPressed] == [RateClicked(m), SliderMoved(code, value), CancelPressed];
  }
}
