# Election front end — a Dafny model

This project models the React front end of an election application for a
university: administrators create voter accounts, candidate lists and
elections restricted by class, mention, activity and sport type, then publish
the results; voters see the elections of their class, vote once through a
fingerprint check, and read the published results.

The model keeps the decisions the pages make and leaves out rendering and the
network. Each server answer a page waits for is a parameter of the operation
that consumes it, and so is the clock (`now`, in milliseconds). JavaScript
values that the pages compare with `===` keep their type (`JsVal` holds a
number, a string or `null`). `String(n)`, `parseInt`, `toLowerCase`,
`includes`, `filter`, `join` and `x || default` are written out in `Common`.
Code that changes state step by step is written as classes whose methods
change the fields, with a `Valid()` invariant. The decisions the pages compute
are written as functions.

Modules, one per part of the front end:

- `Common`: the JavaScript helpers the pages share, including the name searches.
- `Elections`: the election lifecycle tests, the publish and vote buttons, and
  the election searches.
- `Eligibility`: the voter-criteria check of the vote page.
- `Tally`: totals, maximum and winners on the two results pages.
- `Sorting`: sorting in place by a comparator, and the string comparison.
- `Labels`: the label tables of the detail and profile pages.
- `AdminLists`: the admin dashboard, the election management page and the user
  management page (sorts, searches, deletes, the carousel).
- `CandidateList`: creating a candidate list (selection toggle, validation,
  candidate search).
- `ElectionForm`: the election form component (validation, criteria, sport
  reset).
- `ElectionPayload`: what the election creation and edit pages send, and how
  they load an election.
- `Publishing`: publishing results from the details page, the edit page and
  the admin results page.
- `VoteSession`: the vote page (selection, fingerprint check, confirmation).
- `VoterViews`: the voter dashboard, the voter's election list, the details
  page and the voter results page.
- `UserForms`: the user form component and the user creation and edit pages.
- `FirstLogin`: the first-login password page.

The model follows the code where it departs from the usual rules:

- The open window includes its end instant. `Elections.WindowVersusHalfOpenPhase`
  shows that it differs from a half-open window exactly at that instant.
- The vote page's sport rule checks the sport type whenever a sport-type list
  is set and the voter does SPORT. It does not also require an activity list
  that names SPORT. `Eligibility.SportRulesDiffer` gives a voter the two rules
  treat differently.
- The creation page stores classes as numbers. The voter pages look for the
  class as a string. `ElectionPayload.CreatedClassRestrictionAdmitsNone` and
  `Eligibility.NumericClassesExcludeEveryone` state the consequence.
- Vote uniqueness is enforced by the server, not by the front end. The model
  covers only what the front end shows and disables.

The pages are modelled as written, defects included. Each defect listed under
"## Findings" also has its corrected behaviour as a separate member. The one
exception is the admin dashboard's carousel index: the page model clamps it,
as noted under "## Left out".

## Model

| member | source | states |
|---|---|---|
| Common.Lower | frontend/src/pages/AdminDashboard.jsx:68 | lower-casing a letter adds 32 to its code; any other character is unchanged; no upper-case letter remains |
| Common.LowerStr | frontend/src/pages/AdminDashboard.jsx:68 | `toLowerCase` keeps the length and lower-cases each character |
| Common.LowerStrIdempotent | frontend/src/pages/GererElection.jsx:49 | lower-casing twice is the same as lower-casing once |
| Common.ContainsAt | frontend/src/pages/GererElection.jsx:49 | `includes` holds when the query occurs at some position |
| Common.ContainsWitness | frontend/src/pages/GererElection.jsx:49 | when `includes` holds, there is a position where the query occurs |
| Common.ContainsIff | frontend/src/pages/GererElection.jsx:49 | `includes` holds exactly when the query occurs at some position |
| Common.EmptyQueryMatchesNamed | frontend/src/pages/ResultPageAdmin.jsx:65 | the empty query matches exactly the entries that have a name |
| Common.NameMatchesIgnoresCase | frontend/src/pages/GererUtilisateur.jsx:81 | the name search gives the same answer after lower-casing both name and query |
| Common.Filter | frontend/src/pages/AdminDashboard.jsx:84 | `filter` keeps exactly the elements the predicate accepts, and no more of them |
| Common.FilterAppend | frontend/src/pages/AdminDashboard.jsx:84-85 | filtering a concatenation filters each part |
| Common.FilterCommutes | frontend/src/pages/AdminDashboard.jsx:84-85 | two filters give the same list in either order |
| Common.FilterSamePredicate | frontend/src/pages/AdminDashboard.jsx:84-85 | predicates that agree on every element filter alike |
| Common.NameSearch | frontend/src/pages/ResultPageAdmin.jsx:65 | the guarded search keeps exactly the named entries whose lower-cased name contains the lower-cased query |
| Common.StrictNameSearch | frontend/src/pages/AdminDashboard.jsx:68 | the unguarded search throws exactly when some entry has no name; otherwise it equals the guarded search |
| Common.CountWhere | frontend/src/pages/AdminDashboard.jsx:154-155 | `filter(..).length` is the length of the filtered list |
| Common.DigitChar | frontend/src/pages/UserVotePage.jsx:56 | a digit value becomes the matching decimal digit character |
| Common.Dec | frontend/src/pages/UserVotePage.jsx:56 | `String(n)` of a natural number is a non-empty run of digits |
| Common.DigitsValueOfDec | frontend/src/pages/UserVotePage.jsx:56 | reading the digits of `String(n)` gives back n |
| Common.DecRoundTrip | frontend/src/pages/UserVotePage.jsx:56 | parsing `String(n)` gives back n |
| Common.DecInjective | frontend/src/pages/UserVotePage.jsx:56 | different numbers have different decimal texts |
| Common.JsString | frontend/src/pages/UserVotePage.jsx:56 | `String(n)` of an integer is never empty |
| Common.JsNumberOfJsString | frontend/src/pages/UserVotePage.jsx:56 | reading `String(n)` back as a number gives n, negative numbers included |
| Common.JsStringInjective | frontend/src/pages/UserElectionPage.jsx:31 | two classes with the same text are the same class |
| Common.DigitPrefix | frontend/src/pages/UserCreate.jsx:22 | the leading digits `parseInt` reads: a prefix of digits followed by a non-digit or the end |
| Common.JsParseInt | frontend/src/pages/UserCreate.jsx:22 | `parseInt` gives a number back unchanged and gives NaN for `null` |
| Common.ParseIntOfDec | frontend/src/pages/UserEdit.jsx:65 | `parseInt` of the decimal text of n is n |
| Common.DigitPrefixOfDigits | frontend/src/pages/UserEdit.jsx:65 | a text made only of digits is read whole |
| Common.SubmitErrorMessage | frontend/src/pages/ListeCandidatsCreate.jsx:74-80 | a refused save shows the 403 text for status 403, `Erreur: ` plus the server's data when it sent some, and the generic text otherwise |
| Common.Join | frontend/src/pages/UserProfile.jsx:74 | `join` of no texts is empty and of one text is that text |
| Common.TextOr | frontend/src/pages/UserVotePage.jsx:110 | `x \|\| default` on an optional text: the text when non-empty, the default otherwise (server error texts, missing user fields) |
| Common.OrEmpty | frontend/src/pages/ElectionEdit.jsx:41-43 | `x \|\| []`: a missing list reads as empty |
| Common.NewDateMs | frontend/src/pages/UserElectionPage.jsx:68 | `new Date(d)`: an instant is itself, `null` is instant 0, and the empty string or an unparsable text is an Invalid Date |
| Elections.OpenChecksAgree | frontend/src/pages/UserDashboard.jsx:122-129 | on elections without a `null` date, the dashboard's open test and the election list's open test agree on every instant |
| Elections.NullStartOpenOnlyOnElectionPage | frontend/src/pages/UserElectionPage.jsx:68 | a `null` start reads as instant 0 on the election list, which calls the election open until its end, while the dashboard's `!election.startdate` calls it closed |
| Elections.PublishableImpliesNotOpen | frontend/src/components/ElectionDetailsForm.jsx:44-49 | an election that may be published is not open on either voter page |
| Elections.PublishableIff | frontend/src/pages/ResultPageAdmin.jsx:85-90 | publishable exactly when the status is not `ferme` and the end date lies in the past; never once `ferme` |
| Elections.PublishableStays | frontend/src/pages/ElectionDetails.jsx:89-94 | once publishable, an election stays publishable at every later instant |
| Elections.HalfOpenPhase | frontend/src/pages/UserDashboard.jsx:122-129 | the half-open phase is open exactly when start <= now < end |
| Elections.WindowVersusHalfOpenPhase | frontend/src/pages/UserDashboard.jsx:122-129 | the pages' window agrees with the half-open phase at every instant but the end, where the pages still say open |
| Elections.TerminatedStaysClosed | frontend/src/pages/ElectionResultDetails.jsx:94 | an ended election stays ended and is not open at any later instant |
| Elections.PublishLabel | frontend/src/pages/ResultPageAdmin.jsx:147 | the button reads `Publié` exactly when the status is `ferme` |
| Elections.PublishButtonsDiffer | frontend/src/components/ElectionForm.jsx:314-319 | the admin results button is disabled exactly when the election is not publishable; the form buttons also need a candidate |
| Elections.NoVoteWhenPublishable | frontend/src/pages/UserDashboard.jsx:203-208 | no vote button is enabled, on the dashboard or the election list, for an election that may be published |
| Elections.ElectionPageVoteImpliesDashboard | frontend/src/pages/UserElectionPage.jsx:116 | on an election without a `null` date, when the election list enables the vote button and the voter has not voted, the dashboard enables it too |
| Elections.NullStartVoteOnlyOnElectionPage | frontend/src/pages/UserElectionPage.jsx:116 | with a `null` start and an end still ahead, the election list enables the vote button the dashboard does not |
| Elections.SearchByName | frontend/src/pages/ResultPageAdmin.jsx:65 | the guarded election search keeps exactly the elections whose name matches |
| Elections.StrictSearch | frontend/src/pages/GererElection.jsx:49 | the unguarded election search throws exactly on a nameless election, and otherwise equals the guarded search |
| Elections.SearchDropsNameless | frontend/src/pages/ResultPageUser.jsx:88 | a nameless election is never in a guarded search result |
| Elections.EmptySearchKeepsNamed | frontend/src/pages/UserDashboard.jsx:113 | the empty search keeps every named election |
| Eligibility.LoadVotePage | frontend/src/pages/UserVotePage.jsx:68-78 | the ballot is shown exactly when the voter is eligible, `can_vote` is true and there are candidates; each refusal appears exactly when the checks before it pass and its own fails |
| Eligibility.EligibleImpliesClassAllowed | frontend/src/pages/UserVotePage.jsx:55-57 | every voter the vote page admits passes the class filter of the voter pages |
| Eligibility.UnrestrictedAdmitsAll | frontend/src/pages/UserVotePage.jsx:55-66 | with every criterion missing or empty, every voter is eligible |
| Eligibility.NoSportPassesSport | frontend/src/pages/UserVotePage.jsx:64-66 | a voter without the SPORT activity passes the sport-type check |
| Eligibility.SingleClassAdmitsExactly | frontend/src/pages/UserVotePage.jsx:55-57 | a class list holding `String(n)` admits exactly the voters of class n |
| Eligibility.NumericClassesExcludeEveryone | frontend/src/pages/UserVotePage.jsx:56 | a non-empty class list of numbers admits no voter, because the check looks for a string |
| Eligibility.ClassFilter | frontend/src/pages/ResultPageUser.jsx:48-57 | the class filter keeps exactly the elections whose class criterion admits the voter |
| Eligibility.SportRulesAgreeWhenSportListed | frontend/src/pages/UserVotePage.jsx:64-66 | when the activity list names SPORT, the code's sport rule and the rule that binds only when SPORT is listed agree |
| Eligibility.SportRulesDiffer | frontend/src/pages/UserVotePage.jsx:64-66 | without an activity list, a SPORT voter with an unlisted sport type is refused by the code and admitted by the rule that binds only when SPORT is listed |
| Tally.TotalVotesAppend | frontend/src/pages/ElectionResultDetails.jsx:91 | the total over two lists of candidates is the sum of the two totals |
| Tally.CountAtMostTotal | frontend/src/pages/ElectionResultDetails.jsx:91 | with no negative count, no candidate has more votes than the total |
| Tally.TotalNonNegative | frontend/src/pages/UserElectionResultDetails.jsx:120 | with no negative count, the total is not negative |
| Tally.MaxVotesAdmin | frontend/src/pages/ElectionResultDetails.jsx:95 | the admin maximum is -Infinity exactly for no candidates; otherwise it is an upper bound reached by some candidate |
| Tally.WinnersAdmin | frontend/src/pages/ElectionResultDetails.jsx:96 | the admin winners are exactly the candidates whose count equals a positive maximum |
| Tally.MaxVotesUser | frontend/src/pages/UserElectionResultDetails.jsx:124 | the voter-page maximum is at least 0, bounds every count, and is 0 or some candidate's count |
| Tally.WinnersUser | frontend/src/pages/UserElectionResultDetails.jsx:125 | the voter-page winners are exactly the candidates whose count equals a positive maximum |
| Tally.MaxVotesRelate | frontend/src/pages/UserElectionResultDetails.jsx:124 | the two maxima agree when the admin one is positive, and the voter one is 0 otherwise |
| Tally.WinnersAgree | frontend/src/pages/UserElectionResultDetails.jsx:124-125 | both results pages name the same winners in the same order |
| Tally.WinnersDominate | frontend/src/pages/ElectionResultDetails.jsx:95-96 | a winner has a positive count at least as large as every candidate's |
| Tally.TiesAllWin | frontend/src/pages/ElectionResultDetails.jsx:95-96 | candidates tied at a positive maximum are all winners |
| Tally.NoWinnersWithoutVotes | frontend/src/pages/ElectionResultDetails.jsx:95-96 | without a positive count there is no winner on either page |
| Tally.SomeWinnerWithVotes | frontend/src/pages/ElectionResultDetails.jsx:95-96 | with some positive count there is at least one winner |
| Sorting.SortInPlace | frontend/src/pages/AdminDashboard.jsx:43 | sorting in place by a total preorder leaves the array sorted and a permutation of its old contents |
| Sorting.SortedCopy | frontend/src/pages/GererUtilisateur.jsx:58 | sorting a copy gives a sorted permutation of the list |
| Sorting.FilterKeepsSorted | frontend/src/pages/GererUtilisateur.jsx:80-82 | searching a sorted list keeps it sorted |
| Sorting.FilterPreservesPermutation | frontend/src/pages/GererUtilisateur.jsx:80-82 | filtering two permutations of a list gives permutations of each other |
| Sorting.FilterMultiplicity | frontend/src/pages/GererUtilisateur.jsx:80-82 | an element occurs in a filtered list as often as in the list when accepted, and not at all otherwise |
| Sorting.StrCompare | frontend/src/pages/GererUtilisateur.jsx:76 | the comparison of two registration numbers is -1, 0 or 1 |
| Sorting.StrCompareAntisymmetric | frontend/src/pages/GererUtilisateur.jsx:76 | swapping the operands flips the sign, and 0 means equal texts |
| Sorting.StrCompareTransitive | frontend/src/pages/GererUtilisateur.jsx:76 | the comparison is transitive |
| Labels.ClassLabel | frontend/src/components/ElectionDetailsForm.jsx:5-8 | keys 1 to 5 read L1, L2, L3, M1, M2; every other key reads the fallback |
| Labels.ClassLabelRoundTrip | frontend/src/pages/UserDetails.jsx:43-46 | classes 1 to 5 get labels that read back to the class; any other class gets the fallback |
| Labels.ClassKeyOutside | frontend/src/pages/AdminDashboard.jsx:115-118 | the text of a class outside 1 to 5 is none of the table's keys |
| Labels.MentionLabel | frontend/src/components/ElectionDetailsForm.jsx:10-20 | an unknown mention code reads the fallback |
| Labels.MentionLabelRoundTrip | frontend/src/pages/UserProfile.jsx:53-63 | each of the six known mentions reads back from its label; an unknown one reads back as none |
| Labels.MentionCodeLabel | frontend/src/pages/GererUtilisateur.jsx:144-154 | the user table shows a known mention code itself and `Inconnu` for any other |
| Labels.ActiviteLabel | frontend/src/components/ElectionDetailsForm.jsx:22-31 | an unknown activity reads the fallback; a known one reads a label without a comma that is not `Aucune` |
| Labels.SportLabel | frontend/src/components/ElectionDetailsForm.jsx:33-41 | a missing or unknown sport type reads `Aucun`; a known one reads something else |
| Labels.MapLabels | frontend/src/components/ElectionDetailsForm.jsx:95 | `map` keeps the length and labels each element |
| Labels.ListLabel | frontend/src/components/ElectionDetailsForm.jsx:95 | a missing or empty criterion list reads the "none" text |
| Labels.JoinOfSeveralHasComma | frontend/src/components/ElectionDetailsForm.jsx:103 | two or more joined labels contain a comma |
| Labels.ListLabelEmptyIff | frontend/src/components/ElectionDetailsForm.jsx:111 | with proper labels, the list reads the "none" text exactly when it is empty |
| Labels.UnknownSportReadsAsNone | frontend/src/components/ElectionDetailsForm.jsx:119 | a sport-type list holding only an unknown type reads like an empty one |
| Labels.ActivitesLabel | frontend/src/pages/UserProfile.jsx:65-76 | a user without activities reads `Aucune` |
| Labels.ActivitesLabelNoneIff | frontend/src/pages/UserDetails.jsx:60-71 | on the profile pages, `Aucune` is shown exactly for an empty activity list |
| AdminLists.DeleteById | frontend/src/pages/GererUtilisateur.jsx:95 | a delete keeps exactly the entries whose id differs from the deleted one |
| AdminLists.FilterKeepsAll | frontend/src/pages/GererUtilisateur.jsx:95-96 | a filter that accepts every element returns the list unchanged |
| AdminLists.DeleteUniqueKeepsOrder | frontend/src/pages/GererElection.jsx:63 | with unique ids, a delete removes exactly that entry and keeps the others in order |
| AdminLists.DeleteByIdAppend | frontend/src/pages/GererElection.jsx:63-64 | deleting from a concatenation deletes from each part |
| AdminLists.DeleteByIdKeepsAll | frontend/src/pages/GererElection.jsx:63-64 | deleting an absent id changes nothing |
| AdminLists.DeleteCommutesWithSearch | frontend/src/pages/GererElection.jsx:63-64 | deleting from the searched list gives the search of the list after the delete |
| AdminLists.DeleteKeepsNamed | frontend/src/pages/GererUtilisateur.jsx:95-96 | a delete keeps every remaining user named, so the search cannot start throwing |
| AdminLists.StrictSearchIffNamed | frontend/src/pages/GererUtilisateur.jsx:81 | the unguarded search succeeds exactly when every entry has a name |
| AdminLists.SameElementsNamed | frontend/src/pages/GererUtilisateur.jsx:58-81 | a sorted copy has a nameless user exactly when the list does |
| AdminLists.SearchOfSorted | frontend/src/pages/GererUtilisateur.jsx:58-82 | searching the sorted copy gives a sorted list with the same users as searching the unsorted list |
| AdminLists.MentionRank | frontend/src/pages/GererUtilisateur.jsx:47-61 | a listed mention ranks by its position, from 1 to 7; any other mention ranks 999 |
| AdminLists.DisRankedButUnlabelled | frontend/src/pages/GererUtilisateur.jsx:47-55 | `DIS` ranks second in the sort but the table shows it as `Inconnu` |
| AdminLists.UserLeTotalPreorder | frontend/src/pages/GererUtilisateur.jsx:58-77 | the user comparator is a total preorder |
| AdminLists.UserOrder | frontend/src/pages/GererUtilisateur.jsx:58-77 | a sorted table orders by mention rank, then class, then registration number |
| AdminLists.UserManagementPage.SortAndSearch | frontend/src/pages/GererUtilisateur.jsx:44-83 | the table becomes the sorted search result when every user is named; otherwise the page is broken and the table unchanged |
| AdminLists.UserManagementPage.constructor | frontend/src/pages/GererUtilisateur.jsx:23-35 | the loaded users, an empty query, and a broken page exactly when some user has no name |
| AdminLists.UserManagementPage.SetQuery | frontend/src/pages/GererUtilisateur.jsx:78-83 | a new query re-runs the sort and search |
| AdminLists.UserManagementPage.HandleDelete | frontend/src/pages/GererUtilisateur.jsx:92-106 | a successful delete removes the user from both lists and shows the success text; a failed one changes no list |
| AdminLists.StartDescLeTotalPreorder | frontend/src/pages/AdminDashboard.jsx:43 | latest start first is a total preorder |
| AdminLists.SortByStartDesc | frontend/src/pages/GererElection.jsx:29 | the elections are sorted in place, latest start first, as a permutation of the loaded ones |
| AdminLists.StatusCounts | frontend/src/pages/AdminDashboard.jsx:154-155 | the open and closed slices never overlap, and cover every election when each status is one of the two |
| AdminLists.CarouselWraps | frontend/src/pages/AdminDashboard.jsx:178-184 | on a non-empty list the buttons keep the index in range, undo each other, and wrap at both ends |
| AdminLists.NextDriftsAway | frontend/src/pages/AdminDashboard.jsx:182-184 | from an index past the end, each click on next only moves further away |
| AdminLists.DeleteLeavesCarouselPastEnd | frontend/src/pages/AdminDashboard.jsx:84 | deleting the last shown election leaves the index past the end, where next never brings it back |
| AdminLists.ClampIndex | frontend/src/pages/AdminDashboard.jsx:161 | the corrected index after a delete is in range on a non-empty list and unchanged when already in range |
| AdminLists.AdminDashboardPage.CurrentElection | frontend/src/pages/AdminDashboard.jsx:161 | the carousel shows an election exactly when the index is in range, and then the one at the index |
| AdminLists.AdminDashboardPage.ApplySearch | frontend/src/pages/AdminDashboard.jsx:66-73 | both lists become their unguarded searches, or the page is broken when an entry has no name |
| AdminLists.AdminDashboardPage.constructor | frontend/src/pages/AdminDashboard.jsx:33-48 | the loaded elections sorted in place, latest start first, the loaded users, an empty query and the first election shown |
| AdminLists.AdminDashboardPage.SetQuery | frontend/src/pages/AdminDashboard.jsx:66-73 | a new query re-runs the search over both lists |
| AdminLists.AdminDashboardPage.DeleteElection | frontend/src/pages/AdminDashboard.jsx:81-93 | a successful delete removes the election from both lists and keeps the carousel index in range; a failed one changes nothing but the notice |
| AdminLists.AdminDashboardPage.DeleteUser | frontend/src/pages/AdminDashboard.jsx:100-112 | a successful delete removes the user from both lists; a failed one changes no list |
| AdminLists.AdminDashboardPage.Previous | frontend/src/pages/AdminDashboard.jsx:178-180 | the index moves back one, wrapping to the last election |
| AdminLists.AdminDashboardPage.Next | frontend/src/pages/AdminDashboard.jsx:182-184 | the index moves on one, wrapping to the first election |
| AdminLists.ElectionManagementPage.ApplySearch | frontend/src/pages/GererElection.jsx:47-51 | the table becomes the unguarded search, or the page is broken when an election has no name |
| AdminLists.ElectionManagementPage.constructor | frontend/src/pages/GererElection.jsx:24-32 | the loaded elections sorted in place, latest start first, an empty query, and a broken page exactly when one has no name |
| AdminLists.ElectionManagementPage.SetQuery | frontend/src/pages/GererElection.jsx:47-51 | a new query re-runs the search |
| AdminLists.ElectionManagementPage.HandleDelete | frontend/src/pages/GererElection.jsx:60-72 | a successful delete removes the election from both lists; a failed one changes no list |
| CandidateList.Toggle | frontend/src/pages/ListeCandidatsCreate.jsx:39-45 | a ticked candidate is removed from the selection and an unticked one is appended |
| CandidateList.ToggleMembership | frontend/src/pages/ListeCandidatsCreate.jsx:40-42 | a toggle flips the membership of that candidate and of no other |
| CandidateList.FilterKeepsDistinct | frontend/src/pages/ListeCandidatsCreate.jsx:41 | removing from a list without repeats leaves no repeats |
| CandidateList.ToggleKeepsDistinct | frontend/src/pages/ListeCandidatsCreate.jsx:39-45 | the selection never holds a candidate twice |
| CandidateList.ToggleTwice | frontend/src/pages/ListeCandidatsCreate.jsx:39-45 | toggling twice restores the membership, and restores the list itself when the candidate was not selected |
| CandidateList.FilterKeepsAllOf | frontend/src/pages/ListeCandidatsCreate.jsx:41 | removing an absent candidate changes nothing |
| CandidateList.ValidateList | frontend/src/pages/ListeCandidatsCreate.jsx:47-56 | a blank name and an empty selection are reported with their texts, and nothing else is |
| CandidateList.ValidListIff | frontend/src/pages/ListeCandidatsCreate.jsx:47-56 | a list validates exactly when its name is not blank and a candidate is selected |
| CandidateList.ListCreatePage.constructor | frontend/src/pages/ListeCandidatsCreate.jsx:14-16 | an empty name, an empty selection, no errors, an empty search term, no notification and no navigation |
| CandidateList.ListCreatePage.HandleNameChange | frontend/src/pages/ListeCandidatsCreate.jsx:33-37 | the name takes the typed value and its error is cleared |
| CandidateList.ListCreatePage.HandleCheckboxChange | frontend/src/pages/ListeCandidatsCreate.jsx:39-45 | the selection is toggled, stays without repeats, and its error is cleared |
| CandidateList.ListCreatePage.HandleFormSubmit | frontend/src/pages/ListeCandidatsCreate.jsx:58-84 | the list is posted exactly when it validates; an accepted post navigates with the success text and leaves the notification alone; a refusal shows the save error text and does not navigate |
| CandidateList.SomeActivityMatches | frontend/src/pages/ListeCandidatsCreate.jsx:132 | true only when some activity name matches; a throw only on a nameless activity; with every activity named, true exactly when one matches |
| CandidateList.CandidateMatches | frontend/src/pages/ListeCandidatsCreate.jsx:129-133 | a fully named candidate matches by name, registration number or activity; a name match stops the test; a nameless candidate throws |
| CandidateList.SearchCandidates | frontend/src/pages/ListeCandidatsCreate.jsx:129-133 | the search throws exactly when some candidate's test throws, and otherwise keeps the matching candidates |
| CandidateList.SearchFindsMatches | frontend/src/pages/ListeCandidatsCreate.jsx:129-133 | over fully named candidates the search succeeds and keeps exactly the matching ones |
| CandidateList.NameMatchShortCircuits | frontend/src/pages/ListeCandidatsCreate.jsx:130 | a candidate whose name matches is kept by the filter even when its other fields are missing (rendering its row still reads `activites`) |
| CandidateList.NamelessCandidateThrows | frontend/src/pages/ListeCandidatsCreate.jsx:130 | one nameless candidate makes the search throw |
| CandidateList.TextMatchesIgnoresCase | frontend/src/pages/ListeCandidatsCreate.jsx:130 | the candidate search ignores case |
| CandidateList.EmptyTermKeepsAll | frontend/src/pages/ListeCandidatsCreate.jsx:129-133 | the empty search term keeps every fully named candidate |
| CandidateList.UnknownActivityShownRaw | frontend/src/pages/ListeCandidatsCreate.jsx:116 | an unknown activity is shown by its own name |
| CandidateList.KnownActivitiesJoined | frontend/src/pages/ListeCandidatsCreate.jsx:107-117 | known activities are shown by label, joined by a comma; none reads `Aucune` |
| ElectionForm.ValidateForm | frontend/src/components/ElectionForm.jsx:92-105 | each field has an error exactly when its rule fails, with the text the code sets, and no other field has one |
| ElectionForm.ValidFormIff | frontend/src/components/ElectionForm.jsx:92-105 | a form validates exactly when it has a name, both dates, a list with a candidate, and the start before the end when both dates parse |
| ElectionForm.SelectedCount | frontend/src/components/ElectionForm.jsx:38-45 | no list means no candidate; a positive count comes from the list with the chosen id |
| ElectionForm.FindCount | frontend/src/components/ElectionForm.jsx:40 | `find` gives the count of a list with that id, or 0 when none has it |
| ElectionForm.SportReset | frontend/src/components/ElectionForm.jsx:47-57 | the sport types are cleared unless SPORT is an activity; the other criteria are unchanged |
| ElectionForm.SetCriterion | frontend/src/components/ElectionForm.jsx:81-90 | a multi-select change sets that criterion to the chosen values, or to none when cleared, and leaves the others |
| ElectionForm.SportTypesFollowActivities | frontend/src/components/ElectionForm.jsx:47-57 | sport types survive a change of any criterion while SPORT stays selected, and are cleared once it is not |
| ElectionForm.FormState.constructor | frontend/src/components/ElectionForm.jsx:11-32 | the form starts from the initial data after the sport reset, with no errors; the later resets of the effect on `[electionData]` are `PageRender` |
| ElectionForm.FormState.HandleNomChange | frontend/src/components/ElectionForm.jsx:59-63 | the name takes the typed value and its error is cleared |
| ElectionForm.FormState.HandleStartDateChange | frontend/src/components/ElectionForm.jsx:65-71 | the start date takes the picked date and its error is cleared |
| ElectionForm.FormState.HandleEndDateChange | frontend/src/components/ElectionForm.jsx:65-71 | the end date takes the picked date and its error is cleared |
| ElectionForm.FormState.HandleListChange | frontend/src/components/ElectionForm.jsx:73-79 | the list takes the chosen id, its error is cleared, and the candidate count follows it |
| ElectionForm.FormState.HandleMultiSelectChange | frontend/src/components/ElectionForm.jsx:81-90 | the criterion changes, the sport reset runs, and the criteria error is cleared |
| ElectionForm.CreateInitial | frontend/src/pages/ElectionCreate.jsx:82-88 | the creation page's data gives an empty name, no dates, no list, no criteria and the status `ouvert` |
| ElectionForm.CreateRenderDiscardsInput | frontend/src/pages/ElectionCreate.jsx:82-88 | on the creation page a render keeps the form's data exactly when nothing was entered, and what it leaves never passes the browser's checks |
| ElectionForm.IntendedRenderKeepsInput | frontend/src/components/ElectionForm.jsx:30-32 | resetting only on new election data keeps what was entered across renders, which is what the edit page already does |
| ElectionForm.FormState.PageRender | frontend/src/components/ElectionForm.jsx:30-32 | a render of the creation page puts the initial data back and looks up its list again, keeping the errors; on the edit page the form is unchanged |
| ElectionForm.RefusedCreate | frontend/src/pages/ElectionCreate.jsx:61-72 | a valid create that the server refuses is handed on once, and the render that follows its notification leaves the form empty |
| ElectionForm.FormState.SportResetEffect | frontend/src/components/ElectionForm.jsx:47-57 | the effect applies the sport reset to the form |
| ElectionForm.FormState.OnSubmit | frontend/src/components/ElectionForm.jsx:107-210 | while the name is empty or a date picker has no date, the browser blocks the submit and nothing changes; otherwise the form is handed on exactly when it validates, and else its errors are shown |
| ElectionPayload.CreateClasses | frontend/src/pages/ElectionCreate.jsx:40 | each class text is read as a number and the zeros are dropped |
| ElectionPayload.AsNumbers | frontend/src/pages/ElectionCreate.jsx:40 | the classes are sent as numbers |
| ElectionPayload.AsStrings | frontend/src/pages/ElectionEdit.jsx:101 | the classes are sent as strings |
| ElectionPayload.BuildCreateCriteria | frontend/src/pages/ElectionCreate.jsx:39-49 | classes as numbers, the non-empty mentions, activities only when some are chosen, sport types only with SPORT and a type chosen |
| ElectionPayload.CreatePayload | frontend/src/pages/ElectionCreate.jsx:30-57 | no list means no request and the list error; otherwise the name, both dates and the list id as typed, the creation criteria (numeric classes, non-empty mentions, activities and sport types only when chosen), and no status |
| ElectionPayload.CreatedClassRestrictionAdmitsNone | frontend/src/pages/ElectionCreate.jsx:40 | a created election that restricts classes admits no voter on the voter pages |
| ElectionPayload.EditLoadClasses | frontend/src/pages/ElectionEdit.jsx:40 | the edit page loads each stored class as its text, and no class when none is stored |
| ElectionPayload.MapToString | frontend/src/pages/ElectionEdit.jsx:40 | `map(String)` keeps the length and converts each value |
| ElectionPayload.EditLoadCriteria | frontend/src/pages/ElectionEdit.jsx:39-44 | the edit form gets the class texts and the other criteria, empty when missing |
| ElectionPayload.EditSaveCriteria | frontend/src/pages/ElectionEdit.jsx:100-105 | the edit page saves the classes as strings and the other criteria as they are |
| ElectionPayload.EditRepairsClasses | frontend/src/pages/ElectionEdit.jsx:100-105 | loading and saving unchanged admits exactly the voters whose class was stored, as a number or as its text |
| ElectionPayload.EditAdmitsCreatedClass | frontend/src/pages/ElectionEdit.jsx:101 | a class stored as a number at creation is admitted after an edit save |
| ElectionPayload.CreateThenEditLoad | frontend/src/pages/ElectionEdit.jsx:40 | creating from the class select and loading into the edit form gives back the selection |
| ElectionPayload.EditLoadList | frontend/src/pages/ElectionEdit.jsx:38 | the loaded list id is never 0, and a stored non-zero id is kept |
| ElectionPayload.StatutOrDefault | frontend/src/pages/ElectionEdit.jsx:45 | a missing status loads as `ouvert` |
| ElectionPayload.EditPayload | frontend/src/pages/ElectionEdit.jsx:86-108 | no list means no request and the list error; otherwise the saved criteria, the list id, and the form's status or else the stored one |
| ElectionPayload.NormaliseCriteria | frontend/src/pages/ElectionResultDetails.jsx:62-68 | every criterion that is not an array becomes empty, and arrays are kept |
| ElectionPayload.NormaliseKeepsEligibility | frontend/src/pages/ElectionResultDetails.jsx:62-68 | the normalised criteria admit exactly the same voters |
| ElectionPayload.ResultsRequestId | frontend/src/pages/ElectionResultDetails.jsx:52 | the results are fetched exactly when the id starts with a digit |
| ElectionPayload.DetailsLoadWarning | frontend/src/pages/ElectionDetails.jsx:46-49 | the details page warns exactly about an election without candidates |
| Publishing.DetailsDecision | frontend/src/pages/ElectionDetails.jsx:96-120 | missing data first, then no candidates, then a post exactly when the election is publishable |
| Publishing.EditDecision | frontend/src/pages/ElectionEdit.jsx:127-155 | missing data first, then a post exactly when publishable at the given clock reading; no candidate check |
| Publishing.PostOnlyWhenPublishable | frontend/src/pages/ElectionDetails.jsx:107 | a request is only sent for an ended election not yet `ferme` |
| Publishing.EditSkipsCandidateCheck | frontend/src/pages/ElectionEdit.jsx:134-140 | both pages decide alike when there are candidates; without any, the edit page still posts |
| Publishing.SecondPublishRefused | frontend/src/pages/ElectionDetails.jsx:89-90 | once the status is `ferme`, both pages refuse to publish |
| Publishing.ElectionDetailsPage.constructor | frontend/src/pages/ElectionDetails.jsx:14-24 | the page holds the loaded election and nothing has been sent |
| Publishing.ElectionDetailsPage.HandlePublish | frontend/src/pages/ElectionDetails.jsx:96-120 | the request is sent exactly on a post decision; a success navigates with the published text and a failure shows the error |
| Publishing.ElectionEditPage.constructor | frontend/src/pages/ElectionEdit.jsx:15-26 | the page holds the loaded election and the first render's clock reading |
| Publishing.ElectionEditPage.Render | frontend/src/pages/ElectionEdit.jsx:26 | every render reads the clock again, so a click after a later render is decided against that reading |
| Publishing.LaterRenderPosts | frontend/src/pages/ElectionEdit.jsx:26 | a click refused before the end is followed by a post once the page has rendered after the end |
| Publishing.ElectionEditPage.HandlePublish | frontend/src/pages/ElectionEdit.jsx:134-155 | decided against the latest render's clock reading: the request is sent exactly on a post decision, and a refusal shows its text |
| Publishing.ResultsAdminPage.constructor | frontend/src/pages/ResultPageAdmin.jsx:40-47 | the loaded elections, and the table the search effect then makes of them with the empty query, which drops the nameless ones; the empty-list notice exactly when nothing was loaded |
| Publishing.ResultsAdminPage.ApplySearch | frontend/src/pages/ResultPageAdmin.jsx:63-67 | the table becomes the guarded search |
| Publishing.ResultsAdminPage.SetQuery | frontend/src/pages/ResultPageAdmin.jsx:63-67 | a new query re-runs the guarded search, and the table stays the search of the list |
| Publishing.ResultsAdminPage.PublishResult | frontend/src/pages/ResultPageAdmin.jsx:69-83 | the request is sent; on success with a refetch the list is replaced and the search effect re-applies the active query, and otherwise both stay as they were and the error is shown |
| Publishing.ResultsAdminPage.ClickPublish | frontend/src/pages/ResultPageAdmin.jsx:140-148 | a disabled button sends nothing; a sent request names that row's election, which was publishable; the table stays the search of the list |
| VoteSession.Select | frontend/src/pages/UserVotePage.jsx:205 | a click selects the text of the candidate's id and changes nothing else |
| VoteSession.EnterSelection | frontend/src/pages/UserVotePage.jsx:206 | the corrected Enter key selects the same candidate as a click |
| VoteSession.Verify | frontend/src/pages/UserVotePage.jsx:97-117 | the fingerprint is valid exactly on the `Fingerprint verified` answer; each other answer shows its error; nothing else changes |
| VoteSession.Submit | frontend/src/pages/UserVotePage.jsx:119-129 | without a selection only the notice; otherwise the dialog opens and the fingerprint is checked |
| VoteSession.Confirm | frontend/src/pages/UserVotePage.jsx:134-155 | no fingerprint, no post; otherwise the selection is posted, and the answer decides the dialog and the notice |
| VoteSession.StepNeedsVerification | frontend/src/pages/UserVotePage.jsx:134-139 | only a successful fingerprint check makes the fingerprint valid, and nothing is posted before |
| VoteSession.NoVoteWithoutVerification | frontend/src/pages/UserVotePage.jsx:97-155 | a session in which the fingerprint service never answers `Fingerprint verified` posts no vote |
| VoteSession.StepConsistent | frontend/src/pages/UserVotePage.jsx:205-206 | every step keeps the selection and the posted votes among the displayed candidates and the route ids Enter was pressed under |
| VoteSession.RunConsistent | frontend/src/pages/UserVotePage.jsx:134-143 | a whole session keeps the selection and the posted votes among the displayed candidates and the route ids Enter was pressed under |
| VoteSession.NoSkip | frontend/src/pages/UserVotePage.jsx:205 | the events after the first are still on displayed cards |
| VoteSession.PostedVotesAreCandidates | frontend/src/pages/UserVotePage.jsx:143 | on a fresh page where the voter only clicks displayed cards and never presses Enter, every vote posted names a displayed candidate |
| VoteSession.PostedVotesWithEnter | frontend/src/pages/UserVotePage.jsx:134-143 | on a fresh page where Enter may be pressed, every vote posted names a displayed candidate or is the route's election id |
| VoteSession.EnterPostsRouteId | frontend/src/pages/UserVotePage.jsx:205-206 | as written, Enter on any card, a verified fingerprint and a confirmation post the route's election id |
| VoteSession.EnterAsWrittenVotesForRouteId | frontend/src/pages/UserVotePage.jsx:206 | with the Enter key as written, the election id is posted as the candidate |
| VoteSession.CorrectedEnterKeepsConsistent | frontend/src/pages/UserVotePage.jsx:206 | corrected: Enter on a displayed card keeps every selection and vote among the displayed candidates, with no route id |
| VoteSession.RetryAfterRejectedPost | frontend/src/pages/UserVotePage.jsx:147-154 | a refused vote keeps the fingerprint valid and the dialog open, so confirming again needs no new scan |
| VoteSession.ButtonsAtRest | frontend/src/pages/UserVotePage.jsx:282-300 | between handlers, cancel is enabled, confirm is enabled exactly with a valid fingerprint, and retry is then hidden |
| VoteSession.VotePage.constructor | frontend/src/pages/UserVotePage.jsx:29-36 | the page starts with no selection, no dialog, no fingerprint and nothing posted |
| VoteSession.VotePage.ClickCandidate | frontend/src/pages/UserVotePage.jsx:205 | the fields move as a click does |
| VoteSession.VotePage.PressEnter | frontend/src/pages/UserVotePage.jsx:206 | the fields move as the Enter key as written: the route's election id becomes the selection |
| VoteSession.VotePage.VerifyFingerprint | frontend/src/pages/UserVotePage.jsx:97-117 | the fields move as the fingerprint check does |
| VoteSession.VotePage.HandleVoteSubmit | frontend/src/pages/UserVotePage.jsx:119-129 | the fields move as the vote button does |
| VoteSession.VotePage.HandleRetryVerification | frontend/src/pages/UserVotePage.jsx:130-132 | the fields move as a new fingerprint check does |
| VoteSession.VotePage.HandleConfirmVote | frontend/src/pages/UserVotePage.jsx:134-155 | the fields move as the confirm button does; a vote is posted only with a valid fingerprint |
| VoteSession.VotePage.CloseDialog | frontend/src/pages/UserVotePage.jsx:282 | the dialog closes and nothing else changes |
| VoterViews.ClassVisible | frontend/src/pages/UserElectionPage.jsx:28-33 | a voter is shown exactly the elections whose class criterion admits the voter's class |
| VoterViews.EmptyListNotice | frontend/src/pages/UserElectionPage.jsx:36-39 | the notice appears exactly when no election is shown |
| VoterViews.EligibleElectionIsListed | frontend/src/pages/UserElectionPage.jsx:28-33 | every election the vote page accepts the voter for is listed |
| VoterViews.DashboardWithinList | frontend/src/pages/UserDashboard.jsx:56-63 | the dashboard shows only elections the election list also shows |
| VoterViews.DashboardLeTotalPreorder | frontend/src/pages/UserDashboard.jsx:64-71 | the dashboard comparator is a total preorder |
| VoterViews.DashboardOrder | frontend/src/pages/UserDashboard.jsx:64-71 | no closed election comes before one that is not; within each group the latest start comes first |
| VoterViews.LoadDashboard | frontend/src/pages/UserDashboard.jsx:55-76 | the dashboard loads the kept elections (class allowed, dates valid) in that order into its state, with the notice exactly when none is kept |
| VoterViews.CountsPartition | frontend/src/pages/UserDashboard.jsx:135-136 | the two chart slices never share an election and together count exactly the elections the chart can place |
| VoterViews.VoteButtonMatchesCount | frontend/src/pages/UserDashboard.jsx:203-208 | on an open election, the vote button is enabled exactly when the election is counted as not voted |
| VoterViews.DurationParts | frontend/src/pages/UserDashboard.jsx:154-161 | whole days from one day on; below a day, the hours and minutes within it |
| VoterViews.EndsWithSuffix | frontend/src/pages/UserDashboard.jsx:158 | a text with a suffix appended ends with that suffix |
| VoterViews.EndsWithLast | frontend/src/pages/UserDashboard.jsx:158 | a text ending with a suffix ends with its last character |
| VoterViews.DurationTextEnds | frontend/src/pages/UserDashboard.jsx:157-160 | the text ends in ` jours` exactly for more than one day and in `min` exactly for the hour form |
| VoterViews.FormatDuration | frontend/src/pages/UserDashboard.jsx:154-161 | a duration of a day or more reads in days, plural from two days; less reads in hours and minutes |
| VoterViews.LoadUserElectionDetails | frontend/src/pages/UserElectionDetails.jsx:37-46 | the election is shown exactly to a voter its class criterion admits; others get the refusal text |
| VoterViews.ResultsNotice | frontend/src/pages/UserElectionResultDetails.jsx:107-110 | a notice is shown exactly when the results are not published |
| VoterViews.ShownCandidates | frontend/src/pages/UserElectionResultDetails.jsx:101-106 | no candidate is tallied unless the results are published |
| VoterViews.LoadResultsAsWritten | frontend/src/pages/UserElectionResultDetails.jsx:50-111 | as written: results for an admitted voter; the fallback only ever succeeds for an election without a class restriction |
| VoterViews.LoadResults | frontend/src/pages/UserElectionResultDetails.jsx:84-107 | corrected: results for an admitted voter, and otherwise the basic election exactly when its class criterion admits the voter |
| VoterViews.OrZero | frontend/src/pages/UserElectionResultDetails.jsx:79 | a missing vote count reads 0 |
| VoterViews.ResultsFallbackAsWrittenFails | frontend/src/pages/UserElectionResultDetails.jsx:93-95 | for a class-restricted election without results, the page as written fails where the corrected one shows the basic election |
| VoterViews.ResultsFallbackAgreement | frontend/src/pages/UserElectionResultDetails.jsx:84-107 | the two agree when the basic election restricts no class, and differ only by the fallback |
| VoterViews.RefusedVoterSeesNothing | frontend/src/pages/UserElectionResultDetails.jsx:72-73 | a voter the class criterion refuses sees neither results nor the basic election |
| VoterViews.UnpublishedHasNoWinner | frontend/src/pages/UserElectionResultDetails.jsx:124-125 | without published results there is no winner and no vote |
| UserForms.InitialForm | frontend/src/components/UserForm.jsx:5-16 | empty password and fingerprint, the year and mention defaults, class 1 when missing or 0, no activity when missing, and no sport type when it is missing or empty |
| UserForms.FieldChange | frontend/src/components/UserForm.jsx:58-63 | the changed field takes the value, or `null` when cleared; every other field is unchanged |
| UserForms.ActivitiesChange | frontend/src/components/UserForm.jsx:48-57 | the activities are the selected ids; the sport type is kept with SPORT (id 2) and cleared without it |
| UserForms.ChangesKeepSportConsistent | frontend/src/components/UserForm.jsx:46-64 | no change ever leaves a sport type without SPORT among the activities |
| UserForms.Shown | frontend/src/components/UserForm.jsx:231 | what an input displays: the text, nothing for `null`, the decimal text of a number |
| UserForms.RevertingRestoresUnchanged | frontend/src/components/UserForm.jsx:19-44 | with the corrected comparison, typing a field back to what it showed leaves the form unchanged |
| UserForms.IntendedImpliesAsWritten | frontend/src/components/UserForm.jsx:32-42 | whatever the corrected comparison reports as changed, the comparison as written reports too |
| UserForms.RevertedFieldsStayChangedAsWritten | frontend/src/components/UserForm.jsx:32-42 | as written, a name cleared again and a class chosen back both still count as changes |
| UserForms.RevertedNameStaysChanged | frontend/src/components/UserForm.jsx:32-42 | as written, a missing name typed in and cleared again is `null` against the initial `''`: it shows the same but counts as changed |
| UserForms.RevertedClassStaysChanged | frontend/src/components/UserForm.jsx:32-42 | as written, class 2 chosen away and back is the string `"2"` against the number 2: it shows the same but counts as changed |
| UserForms.UserFormPage.constructor | frontend/src/components/UserForm.jsx:4-17 | the form starts from the initial data, unchanged and not submitted, and keeps whether it edits |
| UserForms.UserFormPage.HandleChange | frontend/src/components/UserForm.jsx:58-63 | the field changes as `FieldChange` says, the change flag follows the `!==` comparison as written, and the sport rule is kept |
| UserForms.UserFormPage.HandleActivitiesChange | frontend/src/components/UserForm.jsx:48-57 | the activities change as `ActivitiesChange` says, the change flag follows the `!==` comparison as written, and the sport rule holds |
| UserForms.UserFormPage.OnSubmit | frontend/src/components/UserForm.jsx:66-253 | the form is submitted exactly when the `!==` comparison as written reports a change and the browser accepts the inputs: name, first name and year filled in, a four-digit matricule, and a password unless editing |
| UserForms.CreatePayload | frontend/src/pages/UserCreate.jsx:17-27 | the fields as typed, the class through `parseInt`, the sport type only with SPORT, no password, and the typed fingerprint or else the default one |
| UserForms.CreateSendsSelectedClass | frontend/src/pages/UserCreate.jsx:22 | a class chosen in the select, or the default class 1, reaches the server as its number |
| UserForms.CreateFromFormUsesDefaultFingerprint | frontend/src/pages/UserCreate.jsx:26 | a form that leaves the fingerprint empty sends the default fingerprint |
| UserForms.PayloadSportConsistent | frontend/src/pages/UserCreate.jsx:25 | a sport type is sent only with SPORT among the activities, and a consistent form's sport type is sent as is |
| UserForms.CreateFormStartsEmpty | frontend/src/pages/UserCreate.jsx:50-59 | the creation form starts empty, with year 2024-2025, class 1 and mention INFO |
| UserForms.ActivityIds | frontend/src/pages/UserEdit.jsx:42 | the ids of the stored activities, in order |
| UserForms.EditLoad | frontend/src/pages/UserEdit.jsx:31-43 | the edit page loads the stored ids, class 1 when missing or 0, and the activities or none |
| UserForms.EditFormStartsFromStored | frontend/src/pages/UserEdit.jsx:31-43 | the edit form starts from the stored user, with the defaults where fields are missing |
| UserForms.EditSubmitAsWritten | frontend/src/pages/UserEdit.jsx:57-85 | as written: the submit throws and shows the generic error when the form carries no activities; otherwise it sends the form's activity ids |
| UserForms.EditNeverSendsAsWritten | frontend/src/pages/UserEdit.jsx:68 | as written, a form from the user form component is never sent |
| UserForms.EditPayload | frontend/src/pages/UserEdit.jsx:59-71 | corrected: the fields as typed, the sport type only with SPORT, and the password and fingerprint only when typed |
| UserForms.EditSubmitAgreesWithIntended | frontend/src/pages/UserEdit.jsx:59-71 | when the loaded activities name SPORT exactly when its id is selected, the page as written sends the corrected payload |
| UserForms.EditAndCreateAgree | frontend/src/pages/UserEdit.jsx:59-71 | the edit and creation pages send the same fields, apart from the password and the default fingerprint |
| FirstLogin.PasswordCheck | frontend/src/pages/FirstLogin.jsx:23-33 | the password may be posted exactly when both entries agree and it has at least 8 characters; a mismatch is reported before the length |
| FirstLogin.MismatchReportedFirst | frontend/src/pages/FirstLogin.jsx:23-33 | a short password typed differently twice is reported as a mismatch, and as too short once both agree |
| FirstLogin.FirstLoginPage.constructor | frontend/src/pages/FirstLogin.jsx:9-14 | empty entries and messages, not loading, nothing posted |
| FirstLogin.FirstLoginPage.SetNewPassword | frontend/src/pages/FirstLogin.jsx:9 | the new password takes the typed value |
| FirstLogin.FirstLoginPage.SetConfirmPassword | frontend/src/pages/FirstLogin.jsx:10 | the confirmation takes the typed value |
| FirstLogin.FirstLoginPage.HandleSubmit | frontend/src/pages/FirstLogin.jsx:17-111 | while either entry is empty the browser blocks the submit and nothing changes; otherwise a failed check shows its error and posts nothing; otherwise the password is posted, and the answer decides the success text and redirect or the error; every posted password has 8 characters or more |

## Left out

- HTTP requests, `localStorage`, navigation and timers are not modelled. Each server answer is a parameter of the operation that uses it, and a scheduled redirect is a flag.
- Dates are milliseconds, the empty string, `null` or an unparsable text (`DateField`). The server always sends the date keys, so `undefined` is not modelled. Formatting to `DD/MM/YY HH:mm` and its minute precision, time zones and `toLocaleString` are not modelled. The election form compares its two texts through that same abstraction.
- `parseInt` reads leading decimal digits only. Leading whitespace, signs and other radixes are not modelled.
- The turnout percentage is floating-point arithmetic (`toFixed(2)`) and is not modelled. Totals and winners are.
- The dashboard's one-second countdown timer is not modelled.
- The login page, the sidebars, the landing page, the router and the serial-port fingerprint script are outside the modelled core.
- Overlapping asynchronous handlers are not modelled. Each handler runs to completion with the answers it receives.
- Vote uniqueness is enforced by the server. The model proves only what the front end shows and disables.
- A missing criteria object is treated like one whose four lists are missing, which is what every check does with it.
- A class criterion that is present but not an array is modelled as missing.
- `localeCompare` is modelled as code-point order. Locale collation is not modelled.
- `toLowerCase` is modelled on ASCII letters only.
- A start date that `new Date` cannot parse sorts as instant 0. In JavaScript the comparator then returns NaN, and the resulting order depends on the engine.
- A page that throws while rendering (an unguarded `.toLowerCase()` on a missing name) is modelled as a `broken` flag. The page does not change after that.
- Password length counts characters. JavaScript counts UTF-16 code units.
- The change check of the user form compares activity ids as ordered lists, as `JSON.stringify` does. A reordered selection therefore counts as a change.
- The Excel import and export of the user management page are left out (file I/O).
- The chart data objects are not modelled beyond the counts they display.
- AdminLists.AdminDashboardPage.DeleteElection: clamps the carousel index after a delete, the corrected behaviour of the third finding below. The page as written keeps the index; `AdminLists.DeleteLeavesCarouselPastEnd` states what that does.

## Findings

| source | as written | input that shows it | evidently intended | confidence | as-written member | corrected member |
|---|---|---|---|---|---|---|
| frontend/src/pages/UserVotePage.jsx:206 | Enter on a focused card selects `id.toString()`, where `id` is the route's election id | election 7 showing candidate 3: Enter, then a valid fingerprint and confirm, posts candidate `"7"` (`VoteSession.EnterSelectionAsWritten`) | Enter selects `candidate.id.toString()`, as a click does | not executed | VoteSession.EnterAsWrittenVotesForRouteId | VoteSession.EnterSelection |
| frontend/src/pages/UserElectionResultDetails.jsx:93-95 | the fallback reads `userData`, which is declared inside the `try` block and is out of scope in the `catch` | a voter of class 2, an election restricted to `["2"]` whose results are not published: the fallback throws and the page shows the load error (`VoterViews.ResultsFallbackAsWrittenFails`) | the fallback checks the basic election against the voter's class and shows it as unpublished | not executed | VoterViews.LoadResultsAsWritten | VoterViews.LoadResults |
| frontend/src/pages/AdminDashboard.jsx:84 | deleting an election keeps the carousel index | three elections with the third shown, the third deleted: the index is 2 of 2, and next only moves it further (`AdminLists.IndexAfterDeleteAsWritten`) | the index is clamped to the last remaining election | not executed | AdminLists.DeleteLeavesCarouselPastEnd | AdminLists.ClampIndex |
| frontend/src/components/UserForm.jsx:32-42 | fields are compared by `!==`, but a cleared input becomes `null` while the initial value is `''`, and the class select yields a string while the initial class is a number | a user without a name whose name is typed and cleared again, or of class 2 whose class is changed and chosen back: the submit button stays enabled (`UserForms.HasModificationsAsWritten`) | a field counts as changed only when what it shows differs from what it showed first | not executed | UserForms.RevertedFieldsStayChangedAsWritten | UserForms.RevertingRestoresUnchanged |
| frontend/src/pages/UserEdit.jsx:68 | the submit reads `userData.activites`, which the user form never passes on | any submit from the edit page throws and shows the generic error, so no edit is sent (`UserForms.EditNeverSendsAsWritten`) | the sport type is kept when SPORT (id 2) is among the selected activity ids | not executed | UserForms.EditSubmitAsWritten | UserForms.EditPayload |
| frontend/src/pages/ElectionCreate.jsx:82-88 | the creation page passes `electionData` as a new object literal on every render, and the form resets itself whenever that prop changes (frontend/src/components/ElectionForm.jsx:30-32) | a create the server refuses with 403: the notification it sets renders the page again, and the name, dates, list and criteria typed are replaced by the empty form (`ElectionForm.RefusedCreate`) | the form resets only when the election data itself changes, so a refused create keeps what was typed | not executed | ElectionForm.CreateRenderDiscardsInput | ElectionForm.IntendedRenderKeepsInput |
