// The election record as the pages read it, its time window and its
// publication gate.
//
// Dates are instants in milliseconds (`DateField`); the clock is the `now`
// parameter. Status 'ferme' doubles as the "results published" flag: every
// page that publishes checks it, and none other marks publication.

module Elections {
  import opened Common
  import opened Eligibility

  const Ferme := "ferme"
  const Ouvert := "ouvert"

  /** The fields of an election the pages use. `candidateCount` is
      `listeCandidats?.candidats?.length`, 0 when the list is missing. */
  datatype Election = Election(
    id: int,
    nom: Option<string>,
    startdate: DateField,
    enddate: DateField,
    statut: string,
    criteria: Criteria,
    canVote: Flag,
    votersWhoVoted: Option<seq<int>>,
    candidateCount: nat)

  /** `new Date(startdate)` as a number, for the sorts. The dashboard sorts
      only elections whose dates parse; the admin pages take an unparsable
      start as instant 0 (see the notes on their comparator). */
  function StartMs(e: Election): int {
    if e.startdate.At? then e.startdate.ms else 0
  }

  /** `d && new Date(d) < now` (or moment's `isValid() && isBefore(now)`): an
      unparsable date compares false. */
  predicate EndedBefore(d: DateField, now: int) {
    d.At? && d.ms < now
  }

  /** `isPublishable(endDate, statut)`, written alike in the election form,
      the details form, the details, edit and admin results pages. */
  predicate IsPublishable(enddate: DateField, statut: string, now: int) {
    if !IsSet(enddate) || statut == Ferme then false
    else EndedBefore(enddate, now)
  }

  /** `isTerminated` of the results pages. */
  predicate IsTerminated(enddate: DateField, now: int) {
    EndedBefore(enddate, now)
  }

  /** `isElectionOpen` of the dashboard: false when a date is missing,
      otherwise both valid and `now` within the window, both ends included. */
  predicate IsOpenDashboard(startdate: DateField, enddate: DateField, now: int) {
    if !IsSet(startdate) || !IsSet(enddate) then false
    else startdate.At? && enddate.At? && startdate.ms <= now <= enddate.ms
  }

  /** `isElectionOpen` of the election list: `new Date(start) <= now &&
      new Date(end) >= now`; an empty or unparsable date is an Invalid Date,
      which compares false, and `null` is instant 0. */
  predicate IsOpenElectionPage(startdate: DateField, enddate: DateField, now: int) {
    var s := NewDateMs(startdate);
    var e := NewDateMs(enddate);
    s.Some? && s.value <= now && e.Some? && now <= e.value
  }

  /** The two pages decide openness alike on every election without a `null`
      date. */
  lemma OpenChecksAgree(startdate: DateField, enddate: DateField, now: int)
    requires !startdate.NullDate? && !enddate.NullDate?
    ensures IsOpenDashboard(startdate, enddate, now) <==> IsOpenElectionPage(startdate, enddate, now)
  {
  }

  /** A `null` start is falsy, so the dashboard calls the election closed,
      while the election list reads it as instant 0 and calls it open until
      its end. */
  lemma NullStartOpenOnlyOnElectionPage(enddate: int, now: int)
    requires 0 <= now <= enddate
    ensures IsOpenElectionPage(NullDate, At(enddate), now)
    ensures !IsOpenDashboard(NullDate, At(enddate), now)
  {
  }

  /** An election that may be published is no longer open. */
  lemma PublishableImpliesNotOpen(startdate: DateField, enddate: DateField, statut: string, now: int)
    requires IsPublishable(enddate, statut, now)
    ensures !IsOpenDashboard(startdate, enddate, now)
    ensures !IsOpenElectionPage(startdate, enddate, now)
  {
  }

  /** The gate in full: never once 'ferme' or without an end date; otherwise
      exactly when the end date parsed and lies strictly before `now`. */
  lemma PublishableIff(enddate: DateField, statut: string, now: int)
    ensures statut == Ferme ==> !IsPublishable(enddate, statut, now)
    ensures IsPublishable(enddate, statut, now) <==> statut != Ferme && IsTerminated(enddate, now)
  {
  }

  /** Once publishable, an election stays publishable as time goes on, until
      its status becomes 'ferme'. */
  lemma PublishableStays(enddate: DateField, statut: string, now: int, later: int)
    requires IsPublishable(enddate, statut, now) && now <= later
    ensures IsPublishable(enddate, statut, later)
  {
  }

  /** The three phases of an election whose window is half-open. */
  datatype Phase = Pending | Open | Closed

  /** A half-open window: open exactly when start <= now < end. */
  function HalfOpenPhase(now: int, s: int, e: int): (p: Phase)
    ensures p == Open <==> s <= now < e
  {
    if now < s then Pending else if now < e then Open else Closed
  }

  /** Away from the end instant the pages' window and the half-open phase
      agree; at the end instant itself the pages still call the election
      open while the half-open phase calls it closed. */
  lemma WindowVersusHalfOpenPhase(s: int, e: int, now: int)
    requires s < e
    ensures now != e ==> (IsOpenDashboard(At(s), At(e), now) <==> HalfOpenPhase(now, s, e) == Open)
    ensures IsOpenDashboard(At(s), At(e), e) && HalfOpenPhase(e, s, e) == Closed
  {
  }

  /** An election is ended for every later clock reading, and not open then. */
  lemma TerminatedStaysClosed(startdate: DateField, enddate: DateField, now: int, later: int)
    requires IsTerminated(enddate, now) && now <= later
    ensures IsTerminated(enddate, later)
    ensures !IsOpenDashboard(startdate, enddate, later)
  {
  }

  /** 'Publié' on the publish button exactly when the status is 'ferme'. */
  function PublishLabel(statut: string): (r: string)
    ensures r == "Publié" <==> statut == Ferme
  {
    if statut == Ferme then "Publié" else "Publier résultat"
  }

  /** Publish button of the details form and of the election form: disabled
      when closed, not publishable, or without candidates. */
  predicate PublishDisabledWithCandidates(enddate: DateField, statut: string, candidateCount: nat, now: int) {
    statut == Ferme || !IsPublishable(enddate, statut, now) || candidateCount == 0
  }

  /** Publish button of the admin results page: no candidate check. */
  predicate PublishDisabledAdminResults(enddate: DateField, statut: string, now: int) {
    statut == Ferme || !IsPublishable(enddate, statut, now)
  }

  /** The first 'ferme' test of both buttons is subsumed by the gate itself;
      the two buttons differ only on elections without candidates. */
  lemma PublishButtonsDiffer(enddate: DateField, statut: string, candidateCount: nat, now: int)
    ensures PublishDisabledAdminResults(enddate, statut, now) <==> !IsPublishable(enddate, statut, now)
    ensures candidateCount > 0 ==>
      (PublishDisabledWithCandidates(enddate, statut, candidateCount, now) <==> PublishDisabledAdminResults(enddate, statut, now))
    ensures candidateCount == 0 ==> PublishDisabledWithCandidates(enddate, statut, candidateCount, now)
  {
  }

  /** Results buttons on the voter pages: offered only for closed elections. */
  predicate ResultsEnabled(statut: string) {
    statut == Ferme
  }

  /** Vote buttons. The dashboard shows the button only while open and
      disables it when `can_vote === false` or the user already voted. */
  predicate DashboardVoteEnabled(e: Election, userId: int, now: int) {
    IsOpenDashboard(e.startdate, e.enddate, now) && e.canVote != FlagFalse && !HasVoted(e, userId)
  }

  /** `Array.isArray(voters_who_voted) && voters_who_voted.includes(userId)`. */
  predicate HasVoted(e: Election, userId: int) {
    e.votersWhoVoted.Some? && userId in e.votersWhoVoted.value
  }

  /** The election list disables it when `!can_vote || !open`. */
  predicate ElectionPageVoteEnabled(e: Election, now: int) {
    e.canVote == FlagTrue && IsOpenElectionPage(e.startdate, e.enddate, now)
  }

  /** The details page disables it when `!can_vote` only. */
  predicate DetailsVoteEnabled(e: Election) {
    e.canVote == FlagTrue
  }

  /** No vote button is enabled on an election that may be published, on the
      dashboard or the election list. */
  lemma NoVoteWhenPublishable(e: Election, userId: int, now: int)
    requires IsPublishable(e.enddate, e.statut, now)
    ensures !DashboardVoteEnabled(e, userId, now)
    ensures !ElectionPageVoteEnabled(e, now)
  {
    PublishableImpliesNotOpen(e.startdate, e.enddate, e.statut, now);
  }

  /** On an election without a `null` date, the election list's vote button
      is stricter than the dashboard's only about `can_vote`: where the list
      enables it, the dashboard does too, unless the user is already in
      `voters_who_voted`. */
  lemma ElectionPageVoteImpliesDashboard(e: Election, userId: int, now: int)
    requires !e.startdate.NullDate? && !e.enddate.NullDate?
    requires ElectionPageVoteEnabled(e, now) && !HasVoted(e, userId)
    ensures DashboardVoteEnabled(e, userId, now)
  {
    OpenChecksAgree(e.startdate, e.enddate, now);
  }

  /** With a `null` start, the election list enables the vote button that the
      dashboard leaves out. */
  lemma NullStartVoteOnlyOnElectionPage(e: Election, userId: int, now: int)
    requires e.startdate.NullDate? && e.enddate.At? && 0 <= now <= e.enddate.ms
    requires e.canVote == FlagTrue
    ensures ElectionPageVoteEnabled(e, now)
    ensures !DashboardVoteEnabled(e, userId, now)
  {
    NullStartOpenOnlyOnElectionPage(e.enddate.ms, now);
  }

  // ---------------------------------------------------------------------
  // Name searches over elections
  // ---------------------------------------------------------------------

  function ElectionName(e: Election): Option<string> { e.nom }

  /** The guarded search (`e.nom?.toLowerCase().includes(q)`) of the admin
      results, dashboard and result list pages. */
  function SearchByName(es: seq<Election>, query: string): (r: seq<Election>)
    ensures forall i :: 0 <= i < |r| ==> r[i] in es && NameMatches(r[i].nom, query)
    ensures forall i :: 0 <= i < |es| && NameMatches(es[i].nom, query) ==> es[i] in r
  {
    NameSearch(es, ElectionName, query)
  }

  /** The unguarded search (`e.nom.toLowerCase()...`) of the election list,
      the admin dashboard and the election management page: it fails on a
      nameless election and otherwise agrees with the guarded one. */
  function StrictSearch(es: seq<Election>, query: string): (r: Option<seq<Election>>)
    ensures r.None? <==> exists i :: 0 <= i < |es| && es[i].nom.None?
    ensures r.Some? ==> r.value == SearchByName(es, query)
  {
    StrictNameSearch(es, ElectionName, query)
  }

  /** A nameless election is dropped by every guarded search, the empty one
      too. */
  lemma SearchDropsNameless(es: seq<Election>, query: string, i: int)
    requires 0 <= i < |es| && es[i].nom.None?
    ensures forall j :: 0 <= j < |SearchByName(es, query)| ==> SearchByName(es, query)[j] != es[i]
  {
  }

  /** The empty search keeps every named election. */
  lemma EmptySearchKeepsNamed(es: seq<Election>)
    ensures forall i :: 0 <= i < |es| && es[i].nom.Some? ==> es[i] in SearchByName(es, "")
  {
    forall i | 0 <= i < |es| && es[i].nom.Some?
      ensures es[i] in SearchByName(es, "")
    {
      EmptyQueryMatchesNamed(es[i].nom);
    }
  }
}
