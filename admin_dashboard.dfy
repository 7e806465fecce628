/**
 * The admin dashboard: a table of the teams registered in the prediction
 * contract, an "add team" modal form, and the shortened display of
 * addresses. The wallet provider is reduced to whether one is injected, and
 * each awaited wallet or contract call to the way it ends, given as a
 * parameter. A ghost log records the calls the page issues, in order.
 */
module AdminDashboard {
  import opened Common

  /** A team as the contract's `getAllTeams` returns it. */
  datatype ChainTeam = ChainTeam(id: nat, name: string, teamManager: string, fanToken: string)

  /** The named inputs of the add-team form. */
  datatype TeamField = Name | TeamManager | FanToken

  datatype TeamForm = TeamForm(name: string, teamManager: string, fanToken: string)

  const BlankTeamForm: TeamForm := TeamForm("", "", "")

  datatype PlatformStats = PlatformStats(
    totalTeams: int,
    activeMarkets: int,
    totalPredictions: int,
    fanTokensCirculation: int)

  /** The fixed figures the page shows until statistics are read from the contract. */
  const PlaceholderStats: PlatformStats := PlatformStats(10, 50, 100000, 10000000)

  /** Calls into the wallet and the contract, as they leave the page. */
  datatype ContractCall =
    | RequestAccounts
    | AddTeam(name: string, teamManager: string, fanToken: string)
    | GetAllTeams

  /** How the add-team sequence ends once a provider is present. */
  datatype AddOutcome =
    | AccessRejected  // the account request fails
    | SubmitFailed    // `addTeam` is rejected before a transaction exists
    | Reverted        // the transaction is mined but fails
    | Confirmed       // the transaction is mined and succeeds

  // ---------------------------------------------------------------------
  // Address display
  // ---------------------------------------------------------------------

  function Min(a: int, b: int): int { if a <= b then a else b }

  /**
   * `slice(0, 6)`, then "...", then `slice(-4)`. A slice past either end
   * stops at the end, so a short address repeats characters.
   */
  function Abbreviate(address: string): (r: string)
    ensures |r| == Min(6, |address|) + 3 + Min(4, |address|)
    ensures r[..Min(6, |address|)] == address[..Min(6, |address|)]
    ensures r[Min(6, |address|)..Min(6, |address|) + 3] == "..."
    ensures r[|r| - Min(4, |address|)..] == address[|address| - Min(4, |address|)..]
    ensures |address| >= 10 ==> |r| == 13
  {
    address[..Min(6, |address|)] + "..." + address[|address| - Min(4, |address|)..]
  }

  /**
   * For an address of at least ten characters the display is its first six
   * characters, "..." and its last four, and the address is exactly those
   * ten characters around a hidden middle of `|address| - 10` characters.
   */
  lemma AbbreviateHidesOnlyTheMiddle(address: string)
    requires |address| >= 10
    ensures var r := Abbreviate(address);
            && r[6..9] == "..."
            && address == r[..6] + address[6..|address| - 4] + r[9..]
  {
    var r := Abbreviate(address);
    assert r[..6] == address[..6];
    assert r[9..] == address[|address| - 4..];
    assert address == address[..6] + address[6..|address| - 4] + address[|address| - 4..];
  }

  // ---------------------------------------------------------------------
  // The add-team form
  // ---------------------------------------------------------------------

  function FieldValue(form: TeamForm, f: TeamField): string
  {
    match f
    case Name => form.name
    case TeamManager => form.teamManager
    case FanToken => form.fanToken
  }

  /** The form after the input named `f` reports `value`. */
  function SetField(form: TeamForm, f: TeamField, value: string): (r: TeamForm)
    ensures FieldValue(r, f) == value
    ensures forall g :: g != f ==> FieldValue(r, g) == FieldValue(form, g)
  {
    match f
    case Name => form.(name := value)
    case TeamManager => form.(teamManager := value)
    case FanToken => form.(fanToken := value)
  }

  /**
   * The calls one press of "Add Team" issues when a provider is present:
   * the account request, then (if granted) `addTeam` with the form's values,
   * then (only after confirmation) the refetch of the team list.
   */
  function AddTeamCalls(form: TeamForm, outcome: AddOutcome): (r: seq<ContractCall>)
    ensures 1 <= |r| <= 3 && r[0] == RequestAccounts
    ensures forall c :: c in r && c.AddTeam? ==> c == AddTeam(form.name, form.teamManager, form.fanToken)
    ensures AddTeam(form.name, form.teamManager, form.fanToken) in r <==> outcome != AccessRejected
    ensures GetAllTeams in r <==> outcome == Confirmed
    ensures forall i, j :: 0 <= i < |r| && 0 <= j < |r| && r[i].AddTeam? && r[j] == GetAllTeams ==> i < j
    ensures NoDuplicates(r)
  {
    match outcome
    case AccessRejected => [RequestAccounts]
    case SubmitFailed => [RequestAccounts, AddTeam(form.name, form.teamManager, form.fanToken)]
    case Reverted => [RequestAccounts, AddTeam(form.name, form.teamManager, form.fanToken)]
    case Confirmed =>
      [RequestAccounts, AddTeam(form.name, form.teamManager, form.fanToken), GetAllTeams]
  }

  /**
   * The browser submits the modal's form only when each of its three
   * `required` inputs holds some text.
   */
  predicate Complete(form: TeamForm)
  {
    form.name != "" && form.teamManager != "" && form.fanToken != ""
  }

  // ---------------------------------------------------------------------
  // Page state
  // ---------------------------------------------------------------------

  class Dashboard {
    var platformStats: PlatformStats
    var newTeam: TeamForm
    var teams: seq<ChainTeam>
    var showAddTeamModal: bool
    ghost var calls: seq<ContractCall>

    constructor ()
      ensures platformStats == PlatformStats(0, 0, 0, 0)
      ensures newTeam == BlankTeamForm && teams == [] && !showAddTeamModal
      ensures calls == []
    {
      platformStats := PlatformStats(0, 0, 0, 0);
      newTeam := BlankTeamForm;
      teams := [];
      showAddTeamModal := false;
      calls := [];
    }

    /** `fetchPlatformStats`: installs the placeholder figures. */
    method FetchPlatformStats()
      modifies this`platformStats
      ensures platformStats == PlaceholderStats
    {
      platformStats := PlaceholderStats;
    }

    /**
     * `fetchTeams`: with a provider, reads the team list and stores it; a
     * failed read (`response` is None) leaves the list as it was. Without a
     * provider nothing happens.
     */
    method FetchTeams(providerPresent: bool, response: Option<seq<ChainTeam>>)
      modifies this`teams, this`calls
      ensures calls == if providerPresent then old(calls) + [GetAllTeams] else old(calls)
      ensures teams == if providerPresent && response.Some? then response.value else old(teams)
    {
      if providerPresent {
        calls := calls + [GetAllTeams];
        if response.Some? {
          teams := response.value;
        }
      }
    }

    /** `handleInputChange`: updates the named field of the form. */
    method HandleInputChange(f: TeamField, value: string)
      modifies this`newTeam
      ensures newTeam == SetField(old(newTeam), f, value)
    {
      newTeam := SetField(newTeam, f, value);
    }

    /** The "Add Team" and "Cancel" buttons of the modal. */
    method SetShowAddTeamModal(show: bool)
      modifies this`showAddTeamModal
      ensures showAddTeamModal == show
    {
      showAddTeamModal := show;
    }

    /**
     * `handleAddTeam`. Without a provider only a message is logged. With one,
     * the accounts are requested and `addTeam` is sent with the form's
     * values; only once it is confirmed is the modal closed, the form
     * cleared and the team list refetched. Any failure on the way is caught:
     * form, modal and list stay as they were.
     */
    method HandleAddTeam(providerPresent: bool, outcome: AddOutcome, fetchResponse: Option<seq<ChainTeam>>)
      modifies this`newTeam, this`teams, this`showAddTeamModal, this`calls
      ensures !providerPresent ==>
                calls == old(calls) && newTeam == old(newTeam) && teams == old(teams)
                && showAddTeamModal == old(showAddTeamModal)
      ensures providerPresent ==> calls == old(calls) + AddTeamCalls(old(newTeam), outcome)
      ensures providerPresent && outcome != Confirmed ==>
                newTeam == old(newTeam) && teams == old(teams) && showAddTeamModal == old(showAddTeamModal)
      ensures providerPresent && outcome == Confirmed ==>
                !showAddTeamModal && newTeam == BlankTeamForm
                && teams == if fetchResponse.Some? then fetchResponse.value else old(teams)
    {
      if !providerPresent {
        return;
      }
      calls := calls + [RequestAccounts];
      if outcome == AccessRejected {
        return;
      }
      calls := calls + [AddTeam(newTeam.name, newTeam.teamManager, newTeam.fanToken)];
      if outcome != Confirmed {
        return;
      }
      showAddTeamModal := false;
      newTeam := BlankTeamForm;
      FetchTeams(true, fetchResponse);
    }

    /**
     * Pressing the modal's submit button. The form is on screen only while
     * the modal is open, and the browser runs `handleAddTeam` only when the
     * form is complete; otherwise nothing happens.
     */
    method SubmitAddTeamForm(providerPresent: bool, outcome: AddOutcome, fetchResponse: Option<seq<ChainTeam>>)
      modifies this`newTeam, this`teams, this`showAddTeamModal, this`calls
      ensures !(old(showAddTeamModal) && Complete(old(newTeam))) ==>
                calls == old(calls) && newTeam == old(newTeam) && teams == old(teams)
                && showAddTeamModal == old(showAddTeamModal)
      ensures old(showAddTeamModal) && Complete(old(newTeam)) && providerPresent ==>
                calls == old(calls) + AddTeamCalls(old(newTeam), outcome)
      ensures old(showAddTeamModal) && Complete(old(newTeam)) && !providerPresent ==> calls == old(calls)
      ensures old(showAddTeamModal) && Complete(old(newTeam)) && !(providerPresent && outcome == Confirmed) ==>
                newTeam == old(newTeam) && teams == old(teams) && showAddTeamModal == old(showAddTeamModal)
      ensures old(showAddTeamModal) && Complete(old(newTeam)) && providerPresent && outcome == Confirmed ==>
                !showAddTeamModal && newTeam == BlankTeamForm
                && teams == if fetchResponse.Some? then fetchResponse.value else old(teams)
      ensures |old(calls)| <= |calls| && calls[..|old(calls)|] == old(calls)
      ensures forall c :: c in calls[|old(calls)|..] && c.AddTeam? ==>
                c.name != "" && c.teamManager != "" && c.fanToken != ""
    {
      if showAddTeamModal && Complete(newTeam) {
        HandleAddTeam(providerPresent, outcome, fetchResponse);
      }
    }
  }
}
