/**
 * The "create market" form of the team manager page. The page state is the
 * form record (title, description, end date, answer options) and whether
 * the form is shown; each handler replaces that state by a new value, and
 * is modelled as one atomic transition.
 */
module MarketForm {

  /** The named text inputs of the form. */
  datatype Field = Title | Description | EndDate

  datatype Market = Market(title: string, description: string, endDate: string, options: seq<string>)

  datatype PageState = PageState(newMarket: Market, showMarketForm: bool)

  /** The blank form: empty texts and two empty options. */
  const BlankMarket: Market := Market("", "", "", ["", ""])

  /** The state the page starts in. */
  const Initial: PageState := PageState(BlankMarket, false)

  function FieldValue(m: Market, f: Field): string
  {
    match f
    case Title => m.title
    case Description => m.description
    case EndDate => m.endDate
  }

  // ---------------------------------------------------------------------
  // The handlers
  // ---------------------------------------------------------------------

  /** `handleInputChange`: sets the input's named field. */
  function HandleInputChange(s: PageState, f: Field, value: string): (r: PageState)
    ensures FieldValue(r.newMarket, f) == value
    ensures forall g :: g != f ==> FieldValue(r.newMarket, g) == FieldValue(s.newMarket, g)
    ensures r.newMarket.options == s.newMarket.options
    ensures r.showMarketForm == s.showMarketForm
  {
    var m := s.newMarket;
    match f
    case Title => s.(newMarket := m.(title := value))
    case Description => s.(newMarket := m.(description := value))
    case EndDate => s.(newMarket := m.(endDate := value))
  }

  /** The state after option `index` is edited to `value`. */
  function OptionChanged(s: PageState, index: nat, value: string): (r: PageState)
    requires index < |s.newMarket.options|
    ensures |r.newMarket.options| == |s.newMarket.options|
    ensures r.newMarket.options[index] == value
    ensures forall i :: 0 <= i < |s.newMarket.options| && i != index ==>
              r.newMarket.options[i] == s.newMarket.options[i]
    ensures forall f :: FieldValue(r.newMarket, f) == FieldValue(s.newMarket, f)
    ensures r.showMarketForm == s.showMarketForm
  {
    s.(newMarket := s.newMarket.(options := s.newMarket.options[index := value]))
  }

  /**
   * `handleOptionChange`: copies the options into a new array, assigns the
   * edited slot in place and stores the copy. Only the page's option
   * inputs call it, one per existing index.
   */
  method HandleOptionChange(s: PageState, index: nat, value: string) returns (r: PageState)
    requires index < |s.newMarket.options|
    ensures r == OptionChanged(s, index, value)
  {
    var options := s.newMarket.options;
    var newOptions := new string[|options|](i requires 0 <= i < |options| => options[i]);
    newOptions[index] := value;
    r := s.(newMarket := s.newMarket.(options := newOptions[..]));
  }

  /** `handleAddOption`: appends one empty option. */
  function HandleAddOption(s: PageState): (r: PageState)
    ensures |r.newMarket.options| == |s.newMarket.options| + 1
    ensures r.newMarket.options[..|s.newMarket.options|] == s.newMarket.options
    ensures r.newMarket.options[|s.newMarket.options|] == ""
    ensures forall f :: FieldValue(r.newMarket, f) == FieldValue(s.newMarket, f)
    ensures r.showMarketForm == s.showMarketForm
  {
    s.(newMarket := s.newMarket.(options := s.newMarket.options + [""]))
  }

  /**
   * `handleCreateMarket`: the submitted form is only logged; the form is
   * reset to blank and hidden, which is the page's initial state.
   */
  function HandleCreateMarket(s: PageState): (r: PageState)
    ensures forall f :: FieldValue(r.newMarket, f) == ""
    ensures r.newMarket.options == ["", ""]
    ensures !r.showMarketForm
    ensures r == Initial
  {
    PageState(BlankMarket, false)
  }

  /** The "Create New Market" button: shows or hides the form. */
  function ToggleMarketForm(s: PageState): (r: PageState)
    ensures r.showMarketForm == !s.showMarketForm
    ensures r.newMarket == s.newMarket
  {
    s.(showMarketForm := !s.showMarketForm)
  }

  /** Pressing the toggle twice restores the state. */
  lemma ToggleTwiceRestores(s: PageState)
    ensures ToggleMarketForm(ToggleMarketForm(s)) == s
  {
  }

  // ---------------------------------------------------------------------
  // Runs of user actions
  // ---------------------------------------------------------------------

  datatype Action =
    | InputChange(field: Field, value: string)
    | OptionChange(index: nat, value: string)
    | AddOption
    | CreateMarket
    | Toggle

  /**
   * Every input of the form is `required`: the browser submits it only when
   * the three texts and every option hold some text.
   */
  predicate Complete(m: Market)
  {
    && m.title != "" && m.description != "" && m.endDate != ""
    && forall i :: 0 <= i < |m.options| ==> m.options[i] != ""
  }

  /**
   * The actions the page lets happen: the toggle always; the form's inputs
   * and buttons only while it is shown, one option input per existing
   * option; the submission only of a complete form.
   */
  predicate Enabled(s: PageState, a: Action)
  {
    match a
    case Toggle => true
    case OptionChange(i, _) => s.showMarketForm && i < |s.newMarket.options|
    case CreateMarket => s.showMarketForm && Complete(s.newMarket)
    case _ => s.showMarketForm
  }

  /**
   * One user action; an action the page does not let happen changes
   * nothing. While the form is hidden only the toggle acts; only the toggle
   * and a submission change its visibility; a submission happens only from
   * a complete form.
   */
  function Step(s: PageState, a: Action): (r: PageState)
    ensures !Enabled(s, a) ==> r == s
    ensures !s.showMarketForm && !a.Toggle? ==> r == s
    ensures r.showMarketForm != s.showMarketForm ==> a.Toggle? || a.CreateMarket?
    ensures a.CreateMarket? && r != s ==> Complete(s.newMarket) && r == Initial
  {
    if !Enabled(s, a) then s
    else match a
      case InputChange(f, v) => HandleInputChange(s, f, v)
      case OptionChange(i, v) => OptionChanged(s, i, v)
      case AddOption => HandleAddOption(s)
      case CreateMarket => HandleCreateMarket(s)
      case Toggle => ToggleMarketForm(s)
  }

  function Run(s: PageState, actions: seq<Action>): PageState
    decreases |actions|
  {
    if actions == [] then s else Run(Step(s, actions[0]), actions[1..])
  }

  /** The form always offers at least two options. */
  predicate Valid(s: PageState)
  {
    |s.newMarket.options| >= 2
  }

  /** Every action keeps the form valid. */
  lemma StepKeepsValid(s: PageState, a: Action)
    requires Valid(s)
    ensures Valid(Step(s, a))
  {
  }

  /** A run of actions from a valid state ends in a valid state. */
  lemma {:induction false} RunKeepsValid(s: PageState, actions: seq<Action>)
    requires Valid(s)
    ensures Valid(Run(s, actions))
    decreases |actions|
  {
    if actions != [] {
      StepKeepsValid(s, actions[0]);
      RunKeepsValid(Step(s, actions[0]), actions[1..]);
    }
  }

  /**
   * The blank form cannot be submitted: opening it and pressing "Create
   * Market" at once leaves it open and blank.
   */
  lemma BlankFormNotSubmitted()
    ensures Run(Initial, [Toggle, CreateMarket]) == PageState(BlankMarket, true)
  {
    var shown := PageState(BlankMarket, true);
    assert Step(Initial, Toggle) == shown;
    assert !Complete(shown.newMarket);
    assert Step(shown, CreateMarket) == shown;
    assert [Toggle, CreateMarket][1..] == [CreateMarket];
    assert Run(shown, [CreateMarket]) == Run(shown, []);
  }

  /**
   * Whatever the user does from the initial page, the form never offers
   * fewer than two options (there is no way to remove one).
   */
  lemma AtLeastTwoOptions(actions: seq<Action>)
    ensures |Run(Initial, actions).newMarket.options| >= 2
  {
    RunKeepsValid(Initial, actions);
  }
}
