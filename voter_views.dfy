// The voter's pages: the dashboard (class and date filter, closed-last sort,
// vote counts, durations), the election list (class filter and its search),
// the result list, the election details and the result details with their
// fallback when results are not published.

module VoterViews {
  import opened Common
  import opened Eligibility
  import opened Elections
  import opened Tally
  import Sorting

  // ---------------------------------------------------------------------
  // The class filter every voter list applies
  // ---------------------------------------------------------------------

  /** The elections a voter of class `classe` is shown: those whose class
      criterion is missing, empty, or lists the class as a string. */
  function ClassVisible(es: seq<Election>, classe: int): (r: seq<Election>)
    ensures forall i :: 0 <= i < |r| ==> r[i] in es && ClassAllowed(r[i].criteria.classe, classe)
    ensures forall i :: 0 <= i < |es| && ClassAllowed(es[i].criteria.classe, classe) ==> es[i] in r
  {
    Filter(es, (e: Election) => ClassAllowed(e.criteria.classe, classe))
  }

  const NoElectionForClass := "Aucune élection disponible pour votre classe."

  /** The notice of the dashboard, the election list and the result list. */
  function EmptyListNotice(shown: seq<Election>): (r: Option<string>)
    ensures r.Some? <==> shown == []
    ensures r.Some? ==> r.value == NoElectionForClass
  {
    if |shown| == 0 then Some(NoElectionForClass) else None
  }

  /** Every election the vote page would accept the voter for is listed for
      that voter: the list pages hide nothing the voter may vote in. */
  lemma EligibleElectionIsListed(es: seq<Election>, i: int, v: Voter)
    requires 0 <= i < |es| && IsEligible(es[i].criteria, v)
    ensures es[i] in ClassVisible(es, v.classe)
  {
    EligibleImpliesClassAllowed(es[i].criteria, v);
  }

  // ---------------------------------------------------------------------
  // Dashboard
  // ---------------------------------------------------------------------

  /** Both dates parse and the end is after the start. */
  predicate DatesValid(e: Election) {
    e.startdate.At? && e.enddate.At? && e.startdate.ms < e.enddate.ms
  }

  predicate DashboardKeeps(e: Election, classe: int) {
    ClassAllowed(e.criteria.classe, classe) && DatesValid(e)
  }

  /** The dashboard shows a subset of the election list. */
  lemma DashboardWithinList(es: seq<Election>, classe: int, i: int)
    requires 0 <= i < |es| && DashboardKeeps(es[i], classe)
    ensures es[i] in ClassVisible(es, classe)
  {
  }

  function ClosedRank(e: Election): int {
    if e.statut == Ferme then 1 else 0
  }

  /** The dashboard comparator: closed elections after the others, then the
      later start first. */
  function DashboardCompare(a: Election, b: Election): int {
    if ClosedRank(a) != ClosedRank(b) then ClosedRank(a) - ClosedRank(b)
    else StartMs(b) - StartMs(a)
  }

  predicate DashboardLe(a: Election, b: Election) {
    DashboardCompare(a, b) <= 0
  }

  lemma DashboardLeTotalPreorder()
    ensures Sorting.TotalPreorder(DashboardLe)
  {
  }

  /** In an order the comparator accepts, no closed election precedes an
      open one, and elections of the same kind go from the latest start. */
  lemma {:induction false} DashboardOrder(s: seq<Election>, i: int, j: int)
    requires Sorting.Sorted(s, DashboardLe)
    requires 0 <= i < j < |s|
    ensures !(s[i].statut == Ferme && s[j].statut != Ferme)
    ensures (s[i].statut == Ferme) == (s[j].statut == Ferme) ==> StartMs(s[i]) >= StartMs(s[j])
  {
    assert DashboardLe(s[i], s[j]);
  }

  /** The dashboard's load: filter by class and dates, sort the result in
      place, and the notice when nothing is left. */
  method LoadDashboard(loaded: seq<Election>, classe: int) returns (shown: seq<Election>, notice: Option<string>)
    ensures multiset(shown) == multiset(Filter(loaded, (e: Election) => DashboardKeeps(e, classe)))
    ensures forall i :: 0 <= i < |shown| ==> DashboardKeeps(shown[i], classe)
    ensures forall i, j :: 0 <= i < j < |shown| ==> !(shown[i].statut == Ferme && shown[j].statut != Ferme)
    ensures forall i, j :: 0 <= i < j < |shown| && ClosedRank(shown[i]) == ClosedRank(shown[j]) ==>
      shown[i].startdate.ms >= shown[j].startdate.ms
    ensures notice.Some? <==> shown == []
  {
    var kept := Filter(loaded, (e: Election) => DashboardKeeps(e, classe));
    var a := new Election[|kept|](i requires 0 <= i < |kept| => kept[i]);
    assert a[..] == kept;
    DashboardLeTotalPreorder();
    Sorting.SortInPlace(a, DashboardLe);
    shown := a[..];
    forall i | 0 <= i < |shown| ensures DashboardKeeps(shown[i], classe) {
      assert shown[i] in multiset(kept);
    }
    forall i, j | 0 <= i < j < |shown|
      ensures !(shown[i].statut == Ferme && shown[j].statut != Ferme)
      ensures ClosedRank(shown[i]) == ClosedRank(shown[j]) ==> shown[i].startdate.ms >= shown[j].startdate.ms
    {
      DashboardOrder(shown, i, j);
    }
    notice := EmptyListNotice(shown);
  }

  /** `can_vote === false` or already in `voters_who_voted`. */
  predicate CountedVoted(e: Election, userId: int) {
    e.canVote == FlagFalse || HasVoted(e, userId)
  }

  /** `can_vote === true` and not in `voters_who_voted`. */
  predicate CountedNotVoted(e: Election, userId: int) {
    e.canVote == FlagTrue && !HasVoted(e, userId)
  }

  function VotedCount(es: seq<Election>, userId: int): nat {
    CountWhere(es, (e: Election) => CountedVoted(e, userId))
  }

  function NotVotedCount(es: seq<Election>, userId: int): nat {
    CountWhere(es, (e: Election) => CountedNotVoted(e, userId))
  }

  /** The elections the chart can place: `can_vote` is a boolean, or the
      user is listed as having voted. */
  predicate Charted(e: Election, userId: int) {
    e.canVote != FlagMissing || HasVoted(e, userId)
  }

  /** The two slices never share an election and together cover exactly the
      charted ones; an election whose `can_vote` is missing and where the
      user has not voted is in neither. */
  lemma {:induction false} CountsPartition(es: seq<Election>, userId: int)
    ensures forall i :: 0 <= i < |es| ==> !(CountedVoted(es[i], userId) && CountedNotVoted(es[i], userId))
    ensures VotedCount(es, userId) + NotVotedCount(es, userId) == CountWhere(es, (e: Election) => Charted(e, userId))
  {
    if es != [] {
      CountsPartition(es[1..], userId);
    }
  }

  /** On an open election with a boolean `can_vote`, the dashboard's vote
      button is enabled exactly for the elections counted as not voted. */
  lemma VoteButtonMatchesCount(e: Election, userId: int, now: int)
    requires IsOpenDashboard(e.startdate, e.enddate, now) && e.canVote != FlagMissing
    ensures DashboardVoteEnabled(e, userId, now) <==> CountedNotVoted(e, userId)
    ensures !DashboardVoteEnabled(e, userId, now) <==> CountedVoted(e, userId)
  {
  }

  const MsPerSecond := 1000
  const MsPerDay := 86400000

  /** A duration as `formatDuration` shows it: whole days, or hours and
      minutes when there is less than a day. */
  datatype Duration = Days(n: nat) | HoursMinutes(h: int, m: int)

  /** `moment.duration(ms)`: whole days by `Math.floor(asDays())`; hours and
      minutes by truncating seconds, minutes and hours in turn, keeping the
      sign of a negative duration. */
  function DurationParts(d: int): (r: Duration)
    ensures r.Days? <==> d >= MsPerDay
    ensures r.Days? ==> r.n > 0 && r.n * MsPerDay <= d < (r.n + 1) * MsPerDay
    ensures 0 <= d < MsPerDay ==>
      r.HoursMinutes? && 0 <= r.h < 24 && 0 <= r.m < 60
      && r.h * 3600000 + r.m * 60000 <= d < r.h * 3600000 + (r.m + 1) * 60000
    ensures d < 0 ==> r.HoursMinutes? && -24 < r.h <= 0 && -60 < r.m <= 0
  {
    if d >= MsPerDay then Days(d / MsPerDay)
    else
      var mag := if d < 0 then -d else d;
      var minutes := mag / MsPerSecond / 60;
      var h := minutes / 60 % 24;
      var m := minutes % 60;
      assert d >= 0 ==> h * 3600000 + m * 60000 <= d < h * 3600000 + (m + 1) * 60000 by {
        if d >= 0 {
          var seconds := d / MsPerSecond;
          assert seconds * 1000 <= d < seconds * 1000 + 1000;
          assert minutes * 60 <= seconds < minutes * 60 + 60;
          assert minutes < 1440;
          assert h == minutes / 60;
          assert minutes == h * 60 + m;
        }
      }
      if d < 0 then HoursMinutes(-h, -m) else HoursMinutes(h, m)
  }

  function DurationText(r: Duration): string {
    match r
    case Days(n) => JsString(n) + " jour" + (if n > 1 then "s" else "")
    case HoursMinutes(h, m) => JsString(h) + "h " + JsString(m) + "min"
  }

  predicate EndsWith(s: string, t: string) {
    |t| <= |s| && s[|s| - |t|..] == t
  }

  lemma EndsWithSuffix(a: string, t: string)
    ensures EndsWith(a + t, t)
  {
    assert (a + t)[|a + t| - |t|..] == t;
  }

  /** A text ending with `t` ends with the last character of `t`. */
  lemma EndsWithLast(s: string, t: string)
    requires EndsWith(s, t) && t != []
    ensures s[|s| - 1] == t[|t| - 1]
  {
    assert s[|s| - |t|..][|t| - 1] == s[|s| - 1];
  }

  lemma DurationTextEnds(r: Duration)
    ensures EndsWith(DurationText(r), " jours") <==> r.Days? && r.n > 1
    ensures EndsWith(DurationText(r), "min") <==> r.HoursMinutes?
    ensures r.Days? ==> EndsWith(DurationText(r), " jour") || EndsWith(DurationText(r), " jours")
  {
    var text := DurationText(r);
    match r
    case Days(n) =>
      if n > 1 {
        assert text == (JsString(n) + " jour") + "s";
        assert text == JsString(n) + " jours";
        EndsWithSuffix(JsString(n), " jours");
      } else {
        assert text == JsString(n) + " jour";
        EndsWithSuffix(JsString(n), " jour");
        if EndsWith(text, " jours") { EndsWithLast(text, " jours"); EndsWithLast(text, " jour"); }
      }
      if EndsWith(text, "min") {
        EndsWithLast(text, "min");
        if n > 1 { EndsWithLast(text, " jours"); } else { EndsWithLast(text, " jour"); }
      }
    case HoursMinutes(h, m) =>
      assert text == (JsString(h) + "h " + JsString(m)) + "min";
      EndsWithSuffix(JsString(h) + "h " + JsString(m), "min");
      if EndsWith(text, " jours") { EndsWithLast(text, " jours"); EndsWithLast(text, "min"); }
  }

  /** `formatDuration(start, end)`: in days from one whole day on, with the
      plural from two; in hours and minutes below a day. */
  function FormatDuration(start: int, end: int): (r: string)
    ensures end - start >= MsPerDay ==> EndsWith(r, " jour") || EndsWith(r, " jours")
    ensures EndsWith(r, " jours") <==> end - start >= 2 * MsPerDay
    ensures EndsWith(r, "min") <==> end - start < MsPerDay
  {
    var parts := DurationParts(end - start);
    DurationTextEnds(parts);
    DurationText(parts)
  }

  // ---------------------------------------------------------------------
  // Election details
  // ---------------------------------------------------------------------

  datatype DetailsLoad = Stored(e: Election) | Refused(message: string)

  const NotAllowedToSee := "Vous n’êtes pas autorisé à voir cette élection."

  /** The details page stores the election only for a voter its class
      criterion admits; otherwise the error is thrown first. */
  function LoadUserElectionDetails(e: Election, classe: int): (r: DetailsLoad)
    ensures r.Stored? <==> ClassAllowed(e.criteria.classe, classe)
    ensures r.Stored? ==> r.e == e
    ensures r.Refused? ==> r.message == NotAllowedToSee
  {
    if !ClassAllowed(e.criteria.classe, classe) then Refused(NotAllowedToSee) else Stored(e)
  }

  // ---------------------------------------------------------------------
  // Result details and their fallback
  // ---------------------------------------------------------------------

  /** The part of the results response the page reads. */
  datatype ResultsResponse = ResultsResponse(
    classe: Option<seq<JsVal>>,
    candidates: Option<seq<Candidate>>,
    votersWhoVoted: Option<int>)

  /** Where the page ends: published results, the basic election with the
      "not yet published" notice, or the load error. */
  datatype ResultsLoad = Published(candidates: seq<Candidate>, votersWhoVoted: int) | Unpublished | LoadFailed

  const NotYetPublished := "Les résultats ne sont pas encore publiés."
  const DetailsLoadFailed := "Erreur lors du chargement des détails de l’élection."

  function ResultsNotice(r: ResultsLoad): (n: Option<string>)
    ensures n.None? <==> r.Published?
  {
    match r
    case Published(_, _) => None
    case Unpublished => Some(NotYetPublished)
    case LoadFailed => Some(DetailsLoadFailed)
  }

  /** The candidates the page tallies; none unless results are published. */
  function ShownCandidates(r: ResultsLoad): (cs: seq<Candidate>)
    ensures !r.Published? ==> cs == []
  {
    if r.Published? then r.candidates else []
  }

  /** The page as written. `results` is the results request (`None` when it
      fails), `basic` the class criterion of the basic election request
      (`None` when that fails). The fallback reads `userData`, declared only
      inside the first `try` block, so it throws whenever the class criterion
      restricts, and the load error is shown. */
  function LoadResultsAsWritten(classe: int, results: Option<ResultsResponse>, basic: Option<Option<seq<JsVal>>>): (r: ResultsLoad)
    ensures r.Published? <==> results.Some? && ClassAllowed(results.value.classe, classe)
    ensures r.Unpublished? ==> basic.Some? && !Restricts(basic.value)
  {
    if results.Some? && ClassAllowed(results.value.classe, classe) then
      Published(OrEmpty(results.value.candidates), OrZero(results.value.votersWhoVoted))
    else if basic.None? || Restricts(basic.value) then LoadFailed
    else Unpublished
  }

  /** The fallback with the user's class in scope: the basic election is
      shown, without results, exactly to a voter its class criterion admits. */
  function LoadResults(classe: int, results: Option<ResultsResponse>, basic: Option<Option<seq<JsVal>>>): (r: ResultsLoad)
    ensures r.Published? <==> results.Some? && ClassAllowed(results.value.classe, classe)
    ensures r.Unpublished? <==> !r.Published? && basic.Some? && ClassAllowed(basic.value, classe)
    ensures r.Published? ==> r.candidates == OrEmpty(results.value.candidates)
  {
    if results.Some? && ClassAllowed(results.value.classe, classe) then
      Published(OrEmpty(results.value.candidates), OrZero(results.value.votersWhoVoted))
    else if basic.None? || !ClassAllowed(basic.value, classe) then LoadFailed
    else Unpublished
  }

  /** `response.data.voters_who_voted || 0`. */
  function OrZero(n: Option<int>): (r: int)
    ensures n.Some? ==> r == n.value
    ensures n.None? ==> r == 0
  {
    if n.Some? then n.value else 0
  }

  /** A class-restricted election whose results are not published: the
      voter of a listed class gets the load error from the page as written,
      and the "not yet published" view from the corrected fallback. */
  lemma ResultsFallbackAsWrittenFails(classe: int)
    ensures LoadResultsAsWritten(classe, None, Some(Some([JsStr(JsString(classe))]))) == LoadFailed
    ensures LoadResults(classe, None, Some(Some([JsStr(JsString(classe))]))) == Unpublished
  {
    assert JsStr(JsString(classe)) in [JsStr(JsString(classe))];
  }

  /** The two agree whenever the basic election restricts no class, and the
      corrected page shows nothing more than the one as written to a voter
      its criteria refuse. */
  lemma ResultsFallbackAgreement(classe: int, results: Option<ResultsResponse>, basic: Option<Option<seq<JsVal>>>)
    ensures basic.Some? && !Restricts(basic.value) ==>
      LoadResultsAsWritten(classe, results, basic) == LoadResults(classe, results, basic)
    ensures LoadResults(classe, results, basic) != LoadResultsAsWritten(classe, results, basic) ==>
      LoadResults(classe, results, basic) == Unpublished && ClassAllowed(basic.value, classe)
  {
  }

  /** A voter the class criterion refuses never sees results or the basic
      election: the refusal thrown on the main path falls into the fallback,
      which refuses again, and the load error replaces the refusal message. */
  lemma RefusedVoterSeesNothing(classe: int, crit: seq<JsVal>, cs: Option<seq<Candidate>>, vwv: Option<int>)
    requires !ClassAllowed(Some(crit), classe)
    ensures LoadResults(classe, Some(ResultsResponse(Some(crit), cs, vwv)), Some(Some(crit))) == LoadFailed
    ensures LoadResultsAsWritten(classe, Some(ResultsResponse(Some(crit), cs, vwv)), Some(Some(crit))) == LoadFailed
  {
  }

  /** Without published results the page shows no winner and no vote. */
  lemma UnpublishedHasNoWinner(r: ResultsLoad)
    requires !r.Published?
    ensures WinnersUser(ShownCandidates(r)) == [] && TotalVotes(ShownCandidates(r)) == 0
  {
    NoWinnersWithoutVotes(ShownCandidates(r));
  }
}
