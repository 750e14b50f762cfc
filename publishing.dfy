// Publishing results: the guarded `handlePublish` of the election details
// page and of the election edit page, and `publishResult` of the admin
// results page. Each request is recorded in `posted`; the request's outcome
// is a parameter (`postOk`), and so is the error text the HTTP client reports.

module Publishing {
  import opened Common
  import opened Elections

  /** Where a publish click ends. */
  datatype Decision = MissingData | NoCandidates | TooEarly | Post

  const MissingDataMessage := "Erreur : Données de l’élection manquent."
  const NoCandidatesMessage := "Erreur : Impossible de publier les résultats sans candidats."
  const TooEarlyMessage := "Les résultats ne peuvent pas être publiés avant la fin de l’élection ou si déjà publiés."
  const PublishedMessage := "Résultats publiés avec succès !"
  const PublishFailedPrefix := "Erreur lors de la publication des résultats: "

  function DecisionMessage(d: Decision): string
    requires d != Post
  {
    match d
    case MissingData => MissingDataMessage
    case NoCandidates => NoCandidatesMessage
    case TooEarly => TooEarlyMessage
  }

  /** The guards of the details page, in order: id and end date present,
      at least one candidate, publishable. A zero id is falsy. */
  function DetailsDecision(id: int, enddate: DateField, statut: string, candidateCount: nat, now: int): (d: Decision)
    ensures d == MissingData <==> id == 0 || !IsSet(enddate)
    ensures d == NoCandidates <==> id != 0 && IsSet(enddate) && candidateCount == 0
    ensures d == Post <==> id != 0 && candidateCount > 0 && IsPublishable(enddate, statut, now)
  {
    if id == 0 || !IsSet(enddate) then MissingData
    else if candidateCount == 0 then NoCandidates
    else if IsPublishable(enddate, statut, now) then Post
    else TooEarly
  }

  /** The guards of the edit page: the same without the candidate check, and
      with `currentDate` the clock reading of the render the click came from. */
  function EditDecision(id: int, enddate: DateField, statut: string, currentDate: int): (d: Decision)
    ensures d != NoCandidates
    ensures d == MissingData <==> id == 0 || !IsSet(enddate)
    ensures d == Post <==> id != 0 && IsPublishable(enddate, statut, currentDate)
  {
    if id == 0 || !IsSet(enddate) then MissingData
    else if IsPublishable(enddate, statut, currentDate) then Post
    else TooEarly
  }

  /** A request is only ever sent for an election that has ended and is not
      'ferme', from either page. */
  lemma PostOnlyWhenPublishable(id: int, enddate: DateField, statut: string, candidateCount: nat, now: int)
    ensures DetailsDecision(id, enddate, statut, candidateCount, now) == Post ==>
      statut != Ferme && IsTerminated(enddate, now) && !IsOpenDashboard(enddate, enddate, now)
    ensures EditDecision(id, enddate, statut, now) == Post ==>
      statut != Ferme && IsTerminated(enddate, now)
  {
    if DetailsDecision(id, enddate, statut, candidateCount, now) == Post {
      PublishableImpliesNotOpen(enddate, enddate, statut, now);
    }
  }

  /** The pages agree when the election has candidates; without any, the
      details page refuses where the edit page sends the request. */
  lemma EditSkipsCandidateCheck(id: int, enddate: DateField, statut: string, candidateCount: nat, now: int)
    ensures candidateCount > 0 ==> DetailsDecision(id, enddate, statut, candidateCount, now) == EditDecision(id, enddate, statut, now)
    ensures candidateCount == 0 && EditDecision(id, enddate, statut, now) == Post ==>
      DetailsDecision(id, enddate, statut, candidateCount, now) == NoCandidates
  {
  }

  /** A second publish, once the status reads 'ferme', is refused by both. */
  lemma SecondPublishRefused(id: int, enddate: DateField, candidateCount: nat, now: int)
    ensures DetailsDecision(id, enddate, Ferme, candidateCount, now) != Post
    ensures EditDecision(id, enddate, Ferme, now) != Post
  {
  }

  /** The edit page's clock is read at every render: a click refused before
      the end is followed by a post once a render after the end has
      happened. */
  lemma LaterRenderPosts(id: int, end: int, statut: string, refusedAt: int, renderedAt: int)
    requires id != 0 && statut != Ferme && refusedAt <= end < renderedAt
    ensures EditDecision(id, At(end), statut, refusedAt) == TooEarly
    ensures EditDecision(id, At(end), statut, renderedAt) == Post
  {
  }

  /** The details page: the election it shows, the notification it displays,
      where it navigated with which message, and the publish requests sent. */
  class ElectionDetailsPage {
    var election: Election
    var notification: Option<string>
    var navigatedWith: Option<string>
    var posted: seq<int>

    constructor (e: Election)
      ensures election == e && notification == None && navigatedWith == None && posted == []
    {
      election := e;
      notification := None;
      navigatedWith := None;
      posted := [];
    }

    /** `handlePublish(election.id, election.enddate, election.statut)`. */
    method HandlePublish(now: int, postOk: bool, errDetail: string)
      modifies this
      ensures election == old(election)
      ensures var d := DetailsDecision(election.id, election.enddate, election.statut, election.candidateCount, now);
        if d != Post then
          posted == old(posted) && notification == Some(DecisionMessage(d)) && navigatedWith == old(navigatedWith)
        else
          posted == old(posted) + [election.id]
          && (postOk ==> navigatedWith == Some(PublishedMessage) && notification == old(notification))
          && (!postOk ==> navigatedWith == old(navigatedWith) && notification == Some(PublishFailedPrefix + errDetail))
    {
      if election.id == 0 || !IsSet(election.enddate) {
        notification := Some(MissingDataMessage);
        return;
      }
      if election.candidateCount == 0 {
        notification := Some(NoCandidatesMessage);
        return;
      }
      if IsPublishable(election.enddate, election.statut, now) {
        posted := posted + [election.id];
        if postOk {
          navigatedWith := Some(PublishedMessage);
        } else {
          notification := Some(PublishFailedPrefix + errDetail);
        }
      } else {
        notification := Some(TooEarlyMessage);
      }
    }
  }

  /** The edit page: the stored election, and `currentDate`, the clock
      reading the latest render took. */
  class ElectionEditPage {
    var election: Election
    var currentDate: int
    var notification: Option<string>
    var navigatedWith: Option<string>
    var posted: seq<int>

    constructor (e: Election, now: int)
      ensures election == e && currentDate == now
      ensures notification == None && navigatedWith == None && posted == []
    {
      election := e;
      currentDate := now;
      notification := None;
      navigatedWith := None;
      posted := [];
    }

    /** A render, such as the one a new notification causes: `moment()` is
      read again. */
    method Render(now: int)
      modifies this`currentDate
      ensures currentDate == now
    {
      currentDate := now;
    }

    /** `handlePublish(election.id, election.endDate, election.statut)`,
      decided against the latest render's clock reading. */
    method HandlePublish(postOk: bool, errDetail: string)
      modifies this
      ensures election == old(election)
      ensures currentDate == old(currentDate)
      ensures var d := EditDecision(election.id, election.enddate, election.statut, currentDate);
        if d != Post then
          posted == old(posted) && notification == Some(DecisionMessage(d)) && navigatedWith == old(navigatedWith)
        else
          posted == old(posted) + [election.id]
          && (postOk ==> navigatedWith == Some(PublishedMessage) && notification == old(notification))
          && (!postOk ==> navigatedWith == old(navigatedWith) && notification == Some(PublishFailedPrefix + errDetail))
    {
      if election.id == 0 || !IsSet(election.enddate) {
        notification := Some(MissingDataMessage);
        return;
      }
      if IsPublishable(election.enddate, election.statut, currentDate) {
        posted := posted + [election.id];
        if postOk {
          navigatedWith := Some(PublishedMessage);
        } else {
          notification := Some(PublishFailedPrefix + errDetail);
        }
      } else {
        notification := Some(TooEarlyMessage);
      }
    }
  }

  /** The admin results page: every election, the searched ones, the query. */
  class ResultsAdminPage {
    var elections: seq<Election>
    var filtered: seq<Election>
    var query: string
    var notification: Option<string>
    var posted: seq<int>

    /** The search effect has run on the current list and query. */
    ghost predicate Valid()
      reads this
    {
      filtered == SearchByName(elections, query)
    }

    /** The load sets both lists to what was fetched; the search effect then
      runs on the new list with the empty query, which drops every election
      without a name. */
    constructor (loaded: seq<Election>)
      ensures Valid()
      ensures elections == loaded && filtered == SearchByName(loaded, "") && query == ""
      ensures notification == (if loaded == [] then Some("Aucune élection disponible.") else None)
      ensures posted == []
    {
      elections := loaded;
      query := "";
      notification := if loaded == [] then Some("Aucune élection disponible.") else None;
      posted := [];
      filtered := SearchByName(loaded, "");
    }

    /** The search effect, run whenever the query or the list changes. */
    method ApplySearch()
      modifies this`filtered
      ensures filtered == SearchByName(elections, query)
    {
      filtered := SearchByName(elections, query);
    }

    method SetQuery(q: string)
      modifies this`query, this`filtered
      ensures Valid()
      ensures query == q && filtered == SearchByName(elections, q)
    {
      query := q;
      ApplySearch();
    }

    /** `publishResult(id)`: the request, then on success the refetched list
      (`None` when the refetch fails) replaces both lists, and the search
      effect reruns on it with the active query. */
    method PublishResult(id: int, postOk: bool, refetched: Option<seq<Election>>)
      requires Valid()
      modifies this`elections, this`filtered, this`notification, this`posted
      ensures Valid() && query == old(query)
      ensures posted == old(posted) + [id]
      ensures postOk && refetched.Some? ==>
        elections == refetched.value && filtered == SearchByName(refetched.value, query)
        && notification == Some("Résultats publiés avec succès !")
      ensures !(postOk && refetched.Some?) ==>
        elections == old(elections) && filtered == old(filtered)
        && notification == Some("Erreur lors de la publication des résultats.")
    {
      posted := posted + [id];
      if !postOk {
        notification := Some("Erreur lors de la publication des résultats.");
        return;
      }
      notification := Some("Résultats publiés avec succès !");
      if refetched.None? {
        notification := Some("Erreur lors de la publication des résultats.");
        return;
      }
      elections := refetched.value;
      filtered := refetched.value;
      ApplySearch();
    }

    /** A click on the publish button of row `i`: nothing when the button is
      disabled, the request otherwise. */
    method ClickPublish(i: int, now: int, postOk: bool, refetched: Option<seq<Election>>)
      requires Valid() && 0 <= i < |filtered|
      modifies this`elections, this`filtered, this`notification, this`posted
      ensures Valid() && query == old(query)
      ensures PublishDisabledAdminResults(old(filtered[i]).enddate, old(filtered[i]).statut, now) ==>
        posted == old(posted) && elections == old(elections) && filtered == old(filtered)
      ensures |posted| > |old(posted)| ==>
        posted == old(posted) + [old(filtered[i]).id] && IsPublishable(old(filtered[i]).enddate, old(filtered[i]).statut, now)
    {
      var e := filtered[i];
      if PublishDisabledAdminResults(e.enddate, e.statut, now) {
        return;
      }
      PublishResult(e.id, postOk, refetched);
    }
  }
}
