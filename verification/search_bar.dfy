/** The search bar (components/SearchBar.tsx): which key presses and clicks
    submit, when its controls are disabled, and what typing and the hint
    buttons write into the query. The bar owns no state; `query` and
    `isLoading` come from the page. */
module SearchBar {
  import opened Text

  /** `handleKeyDown`: the Enter key submits unless a search is in flight. */
  predicate EnterSubmits(key: string, isLoading: bool) {
    key == "Enter" && !isLoading
  }

  /** The Search button's `disabled`: in flight, or the trimmed query is
      empty, which is to say the query is all whitespace. */
  function ButtonDisabled(query: string, isLoading: bool): (d: bool)
    ensures d <==> isLoading || AllWhitespace(query)
  {
    TrimEmptyIff(query);
    isLoading || Trim(query) == ""
  }

  /** The text input's `disabled`. */
  predicate InputDisabled(isLoading: bool) {
    isLoading
  }

  /** The two "Try searching" buttons. */
  datatype Hint = MacBookProM3 | DysonV15

  function HintLabel(h: Hint): string {
    match h
    case MacBookProM3 => "MacBook Pro M3"
    case DysonV15 => "Dyson V15"
  }

  function HintQuery(h: Hint): string {
    match h
    case MacBookProM3 => "MacBook Pro M3"
    case DysonV15 => "Dyson V15 Detect"
  }

  /** A user action on the bar. */
  datatype BarEvent =
    | KeyDown(key: string)
    | Typed(value: string)
    | SearchClicked
    | HintClicked(hint: Hint)

  /** What the bar asks of the page: `setQuery(value)`, `onSearch()`, or nothing. */
  datatype BarAction = SetQuery(value: string) | Submit | Ignore

  /** The bar's reaction to one event. A disabled control delivers no event:
      nothing can be typed while loading and a disabled button does not click.
      The hint buttons are never disabled. */
  function React(query: string, isLoading: bool, e: BarEvent): (a: BarAction)
    ensures a == Submit ==> !isLoading
    ensures a.SetQuery? ==> e.Typed? || e.HintClicked?
  {
    match e
    case KeyDown(key) => if EnterSubmits(key, isLoading) then Submit else Ignore
    case Typed(value) => if InputDisabled(isLoading) then Ignore else SetQuery(value)
    case SearchClicked => if ButtonDisabled(query, isLoading) then Ignore else Submit
    case HintClicked(h) => SetQuery(HintQuery(h))
  }

  /** The bar submits exactly on Enter or on a click of the button, never
      while loading, and the button additionally needs a query that is not
      all whitespace. Enter does not look at the query at all. */
  lemma SubmitIff(query: string, isLoading: bool, e: BarEvent)
    ensures React(query, isLoading, e) == Submit <==>
      !isLoading && (e == KeyDown("Enter") || (e == SearchClicked && !AllWhitespace(query)))
  {
    TrimEmptyIff(query);
  }

  /** A click on the button never submits a blank query. */
  lemma ButtonNeverSubmitsBlank(query: string, isLoading: bool)
    requires React(query, isLoading, SearchClicked) == Submit
    ensures query != "" && !AllWhitespace(query)
  {
    TrimEmptyIff(query);
  }

  /** Typing replaces the query with the input's whole value, unchanged. */
  lemma TypingIsVerbatim(query: string, value: string)
    ensures React(query, false, Typed(value)) == SetQuery(value)
    ensures React(query, true, Typed(value)) == Ignore
  {
  }

  /** Each hint writes a query that the button accepts, distinct for the two
      hints, and its label is a prefix of that query. */
  lemma HintsAreSearchable(h: Hint)
    ensures !ButtonDisabled(HintQuery(h), false)
    ensures HintLabel(h) <= HintQuery(h)
    ensures forall h' :: HintQuery(h') == HintQuery(h) ==> h' == h
  {
    var q := HintQuery(h);
    TrimEmptyIff(q);
    assert !IsJsWhitespace(q[0]);
    assert HintQuery(MacBookProM3)[1] != HintQuery(DysonV15)[1];
  }
}
