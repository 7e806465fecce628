# FanPredix front end: list and form rules, in Dafny

FanPredix is a sports-prediction web front end. Most of it is markup and
animation. The chain logic (teams, markets and orders) lives in an external
contract that the pages call through a browser wallet. Four pages hold small,
deterministic rules of their own. This project models those rules and proves
what they guarantee.

- **Team catalogue** (`teams_catalogue.dfy`, module `TeamsCatalogue`). The
  teams page filters teams by a case-insensitive name search and by sport. It
  then sorts them in place, highest first, by fan tokens, markets closed or win
  rate. It also builds the sport menu. The module-level `teams` array is an
  `array<Team>`. When no filter is active, the effect sorts that very array, and
  the model keeps this aliasing. The sport menu is built from that same array,
  so "order of first appearance" means the array's current order, which the
  last unfiltered sort fixes, and not the order the teams are declared in. A
  reordering keeps the menu's entries and may change only their order.
- **Bet slip** (`profile_bets.dfy`, module `ProfileBets`). The profile page can
  cancel a bet, redeem winnings into the balance, and show a row's action
  according to the bet's status. It also shows milestone badges and the XP
  still needed for the next level. The bet list is a value that each handler
  replaces. The balance is a field of the `UserData` class, because the page
  updates the module-level user record in place.
- **Market creation form** (`market_form.dfy`, module `MarketForm`). The team
  manager page edits a form through field edits, option edits and "add option".
  Creating the market resets the form, and a button shows or hides it. Each
  handler is one transition of a `PageState` value. One lemma proves that no
  run of user actions leaves fewer than two options.
- **Admin dashboard** (`admin_dashboard.dfy`, module `AdminDashboard`). This
  covers the add-team form, the provider-gated add and refetch sequence, and
  the `first6...last4` address display. The provider is reduced to "present or
  not". Each awaited wallet or contract call becomes a parameter that says how
  the call ends. A ghost log in the `Dashboard` class records the calls the
  page issues, in order.

`common.dfy` (module `Common`) holds `Option` and `NoDuplicates`.

## Model

| member | source | states |
|---|---|---|
| `TeamsCatalogue.IncludesIff` | src/app/teams/page.tsx:40 | the substring test used by the search holds exactly when the term occurs at some position of the name |
| `TeamsCatalogue.FilterByName` | src/app/teams/page.tsx:38-41 | every kept team's lower-cased name contains the lower-cased term; each team is kept with its full multiplicity when it matches and dropped when it does not |
| `TeamsCatalogue.FilterBySport` | src/app/teams/page.tsx:43-45 | every kept team has exactly the chosen sport; every team of that sport is kept with its multiplicity |
| `TeamsCatalogue.Qualifying` | src/app/teams/page.tsx:37-45 | reference definition: the teams that pass both filters (an empty term and "All" filter nothing), each with its multiplicity in the source list |
| `TeamsCatalogue.QualifyingUnfiltered` | src/app/teams/page.tsx:37-45 | with no search term and sport "All", every team qualifies, in its original order |
| `TeamsCatalogue.FiltersYieldQualifying` | src/app/teams/page.tsx:37-45 | running the name filter only when a term is typed, then the sport filter only when a sport is chosen, gives a permutation of the qualifying teams: none lost, none added |
| `TeamsCatalogue.BothFiltersYieldQualifying` | src/app/teams/page.tsx:38-45 | with a term typed and a sport chosen, the name filter followed by the sport filter keeps exactly the qualifying teams, each with its multiplicity |
| `TeamsCatalogue.InsertDescending` | src/app/teams/page.tsx:46 | one insertion pass turns a prefix sorted non-increasing below i into one sorted up to and including i; the new prefix is a permutation of the old prefix, and every element after i is untouched |
| `TeamsCatalogue.SortDescending` | src/app/teams/page.tsx:46 | the in-place sort with comparator `b[key] - a[key]` leaves the array ordered non-increasing by the key and a permutation of what it held |
| `TeamsCatalogue.ApplyFilters` | src/app/teams/page.tsx:36-48 | the result is sorted non-increasing by the chosen key and is a permutation of the qualifying teams; with no filter the result is the module-level `teams` array itself, reordered in place; with a filter it is a fresh array and `teams` is left unchanged |
| `TeamsCatalogue.ShownTeamsPass` | src/app/teams/page.tsx:38-45 | any team in a permutation of the qualifying teams comes from the catalogue, matches the search term if one is typed and has the chosen sport if one is chosen |
| `TeamsCatalogue.Distinct` | src/app/teams/page.tsx:50 | the de-duplicated list has exactly the elements of its input, each once |
| `TeamsCatalogue.DistinctFirstOccurrenceOrder` | src/app/teams/page.tsx:50 | the de-duplicated sports appear in the order of their first appearance among the teams |
| `TeamsCatalogue.SportOptions` | src/app/teams/page.tsx:50 | the menu starts with "All", and its other entries are exactly the sports of the teams |
| `TeamsCatalogue.SportOptionsShape` | src/app/teams/page.tsx:50 | the sport menu starts with "All", then offers exactly the teams' sports, each once and in order of first appearance; the menu has no repeated entry unless a team's sport is itself "All" |
| `TeamsCatalogue.SportOptionsReordered` | src/app/teams/page.tsx:46-50 | when the teams are reordered, as the unfiltered sort does to the module-level array, the menu starts with "All" and offers the same entries |
| `TeamsCatalogue.SportOptionsFollowArrayOrder` | src/app/teams/page.tsx:46-50 | the menu order does follow the array's order: a basketball team and a baseball team give "All, Basketball, Baseball" in one order and "All, Baseball, Basketball" in the other |
| `ProfileBets.Credit` | src/app/profile/page.tsx:50 | the new balance is a finite number exactly when the old one is finite and the bet has winnings, and then it exceeds the old balance by exactly those winnings; otherwise it is NaN, which absorbs every later credit |
| `ProfileBets.CreditsCommute` | src/app/profile/page.tsx:50 | two redeems leave the same balance whichever happens first |
| `ProfileBets.Cancel` | src/app/profile/page.tsx:43 | no bet with the cancelled id remains; every other bet remains with its multiplicity |
| `ProfileBets.CancelDistributes` | src/app/profile/page.tsx:43 | cancelling in a concatenation cancels in each piece, so the remaining bets keep their original relative order |
| `ProfileBets.CancelAbsent` | src/app/profile/page.tsx:43 | cancelling an id that no bet carries leaves the list unchanged |
| `ProfileBets.CancelIdempotent` | src/app/profile/page.tsx:43 | cancelling the same id twice equals cancelling it once |
| `ProfileBets.MarkRedeemed` | src/app/profile/page.tsx:47-49 | the list keeps its length and order; a bet with another id is unchanged; a bet with the id gets status Redeemed and keeps all its other fields |
| `ProfileBets.MarkRedeemedKeepsIds` | src/app/profile/page.tsx:47-49 | redeeming keeps every bet's id at its position |
| `ProfileBets.MarkRedeemedIdempotent` | src/app/profile/page.tsx:47-49 | marking the same id twice equals marking it once |
| `ProfileBets.FindBet` | src/app/profile/page.tsx:50 | the lookup finds nothing exactly when no bet has the id; otherwise it returns the first bet with that id |
| `ProfileBets.RedeemAgainFindsSameWinnings` | src/app/profile/page.tsx:46-51 | after a redeem, the same id is still found with the same winnings, so the handler by itself would credit them again |
| `ProfileBets.OfferedAction` | src/app/profile/page.tsx:263-282 | a row offers Cancel exactly when the bet is Unmatched and Redeem exactly when it is Settled |
| `ProfileBets.RedeemedRowsOfferNothing` | src/app/profile/page.tsx:263-282 | after a redeem, no bet with that id offers any action, so the page cannot trigger a second credit |
| `ProfileBets.MilestonesReached` | src/app/profile/page.tsx:356-360 | badge i is lit exactly when the total number of bets is at least milestone i (25, 50, 75, 100); the lit badges always form a prefix, so whenever a badge is lit every earlier badge is lit too |
| `ProfileBets.MilestonesMonotone` | src/app/profile/page.tsx:356-360 | placing more bets never puts out a badge |
| `ProfileBets.XpToNextLevel` | src/app/profile/page.tsx:115 | the XP shown plus the current XP is 100; it lies within 0..100 when the XP does |
| `ProfileBets.ProfilePage.CancelUnmatchedOrder` | src/app/profile/page.tsx:42-44 | the bet list becomes the cancelled list and the balance is untouched |
| `ProfileBets.ProfilePage.RedeemWinnings` | src/app/profile/page.tsx:46-51 | the bet list becomes the marked list. If a bet has the id, the balance gains exactly the first such bet's winnings (NaN if that bet has none). Otherwise the handler throws and the balance is untouched |
| `ProfileBets.RedeemSettledBet` | src/app/profile/page.tsx:46-51 | redeeming a settled bet with winnings w raises a finite balance by exactly w, keeps the list length and marks every bet with that id Redeemed |
| `MarketForm.HandleInputChange` | src/app/team-manager/page.tsx:31-34 | only the named field takes the new value; the other fields, the options and the form visibility are unchanged |
| `MarketForm.OptionChanged` | src/app/team-manager/page.tsx:36-40 | only option i takes the new value; the option count, the other options, every field and the visibility are unchanged |
| `MarketForm.HandleOptionChange` | src/app/team-manager/page.tsx:36-40 | copying the options into a new array and assigning slot i in place yields exactly the state `OptionChanged` describes |
| `MarketForm.HandleAddOption` | src/app/team-manager/page.tsx:42-44 | exactly one empty option is appended after the existing ones, which are unchanged, as are the fields and the visibility |
| `MarketForm.HandleCreateMarket` | src/app/team-manager/page.tsx:46-51 | the form is reset to empty texts and exactly two empty options and hidden, which is the page's initial state |
| `MarketForm.ToggleMarketForm` | src/app/team-manager/page.tsx:144 | the button flips form visibility and leaves the form contents unchanged |
| `MarketForm.ToggleTwiceRestores` | src/app/team-manager/page.tsx:144 | two presses of the toggle restore the original state |
| `MarketForm.Step` | src/app/team-manager/page.tsx:144-223 | an action the page does not let happen changes nothing; while the form is hidden only the toggle acts; only the toggle and a submission change the form's visibility; a submission happens only when the title, description, end date and every option hold text (the `required` inputs), and it resets the page to its initial state |
| `MarketForm.BlankFormNotSubmitted` | src/app/team-manager/page.tsx:156-223 | opening the form and pressing "Create Market" at once leaves the blank form open: the browser does not submit it |
| `MarketForm.StepKeepsValid` | src/app/team-manager/page.tsx:31-51 | each user action keeps at least two options |
| `MarketForm.RunKeepsValid` | src/app/team-manager/page.tsx:31-51 | any run of user actions from a state with at least two options ends in one |
| `MarketForm.AtLeastTwoOptions` | src/app/team-manager/page.tsx:28-51 | from the initial page, no sequence of user actions leaves fewer than two options |
| `AdminDashboard.Abbreviate` | src/app/admin/dashboard/page.tsx:195-196 | the display is the first min(6, n) characters, then "...", then the last min(4, n) characters; an address of at least 10 characters displays as 13 characters |
| `AdminDashboard.AbbreviateHidesOnlyTheMiddle` | src/app/admin/dashboard/page.tsx:195-196 | for an address of at least 10 characters, the address is exactly the displayed first six and last four characters around a hidden middle |
| `AdminDashboard.SetField` | src/app/admin/dashboard/page.tsx:91-94 | only the named field of the add-team form takes the new value |
| `AdminDashboard.AddTeamCalls` | src/app/admin/dashboard/page.tsx:99-112 | an add issues at most three calls and always starts with the account request. `addTeam` is sent exactly when access is granted, and only ever with the form's values. The team refetch is issued exactly when the transaction is confirmed, and only after `addTeam`. No call is repeated |
| `AdminDashboard.Dashboard.constructor` | src/app/admin/dashboard/page.tsx:46-60 | the page starts with zero statistics, a blank form, no teams, the modal closed and no calls made |
| `AdminDashboard.Dashboard.FetchPlatformStats` | src/app/admin/dashboard/page.tsx:67-76 | the statistics become the fixed placeholder figures |
| `AdminDashboard.Dashboard.FetchTeams` | src/app/admin/dashboard/page.tsx:78-89 | with a provider, the page reads the team list and stores it, or keeps the old list if the read fails; without a provider it makes no call and changes nothing |
| `AdminDashboard.Dashboard.HandleInputChange` | src/app/admin/dashboard/page.tsx:91-94 | the form becomes the form with the named field set |
| `AdminDashboard.Dashboard.SetShowAddTeamModal` | src/app/admin/dashboard/page.tsx:165-172 | the "Add Team" and "Cancel" buttons set the modal's visibility |
| `AdminDashboard.Dashboard.HandleAddTeam` | src/app/admin/dashboard/page.tsx:96-119 | without a provider, no call is made and nothing changes. With one, the calls issued are those of `AddTeamCalls` for the form as submitted. Any failure leaves the form, the modal and the team list as they were. On confirmation the modal closes, the form resets to three empty strings, and the refetched list (or the old one, if the read fails) is shown |
| `AdminDashboard.Dashboard.SubmitAddTeamForm` | src/app/admin/dashboard/page.tsx:248-297 | pressing the modal's submit button runs `handleAddTeam` only while the modal is open and all three `required` inputs hold text, and otherwise changes nothing; so every `addTeam` call that leaves the page carries three non-empty values |

## Left out

- Wallet and contract calls are not modelled. This covers `window.ethereum.request`, `Web3Provider`, `getSigner`, `Contract`, `tx.wait` and `getAllTeams`. Whether a provider is injected is a boolean parameter. How each awaited call ends is a parameter, either `AddOutcome` or an optional team list.
- Console output is not modelled. This covers the "Please install MetaMask" message, the error logs and the log of the submitted market form.
- React scheduling is not modelled: each handler is one atomic state transition. The refetch that `handleAddTeam` starts without awaiting it is modelled as running to completion before the handler returns.
- `TeamsCatalogue.NameMatches`: `toLowerCase` is modelled as ASCII case folding only. The full Unicode case mapping is not modelled.
- `TeamsCatalogue.SortDescending`: the model proves order and permutation but not the stability of the sort.
- JavaScript numbers are modelled as unbounded integers. The float `odds` field is carried but never computed with. The only non-integer result modelled is the NaN that `balance += undefined` produces.
- Float display arithmetic is not modelled. This covers the level bar width on the team manager page (`width` at line 105) and the total-bets bar on the profile page (line 353).
- Markup, framer-motion animation props, Tailwind classes and `toLocaleString` formatting are not modelled.
- The landing page's count-up animation, the header, the footer and the layout are not modelled. They hold animation and menu toggles only.
- `MarketForm.HandleOptionChange` requires an index below the option count. The page renders exactly one input per existing option. An assignment past the end, which would grow a JavaScript array with holes, is not modelled. In `MarketForm.Step`, an action the page does not let happen (no control on screen, or a submission of an incomplete form) changes nothing.
- `ProfileBets.ProfilePage.RedeemWinnings`: when the id is absent, the handler throws. The model has the marked list, which is then equal to the old list, stored as React would store it. The model does not say how the thrown error surfaces.
- The teams page's initial `filteredTeams`, which is the `teams` array before the first effect runs, is not modelled.
- Duplicate React list keys are not modelled.
- The browser's `required` check is modelled as "some text": a value of spaces only counts as filled, as it does for the browser. The date input's own validation of its value is not modelled.
