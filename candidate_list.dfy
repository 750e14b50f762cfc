// The candidate-list creation page: checking candidates on and off, the
// form's validation and submit guard, the candidate search over name,
// registration number and activities, and the activities label.
//
// The search reads `nom`, `matricule` and each activity's `nom` without a
// guard. JavaScript's `||` and `some` stop at the first match, so a missing
// field throws only when the search reaches it; `None` below is that throw.

module CandidateList {
  import opened Common
  import Labels

  // ---------------------------------------------------------------------
  // Selection
  // ---------------------------------------------------------------------

  predicate Distinct(xs: seq<int>) {
    forall i, j :: 0 <= i < j < |xs| ==> xs[i] != xs[j]
  }

  /** `handleCheckboxChange(id)`: drop the id when it is selected, append it
      otherwise. */
  function Toggle(xs: seq<int>, id: int): (r: seq<int>)
    ensures id in xs ==> r == Filter(xs, (x: int) => x != id)
    ensures id !in xs ==> r == xs + [id]
  {
    if id in xs then Filter(xs, (x: int) => x != id) else xs + [id]
  }

  /** A toggle flips the id's membership and leaves every other id as it was. */
  lemma ToggleMembership(xs: seq<int>, id: int, y: int)
    ensures id in Toggle(xs, id) <==> id !in xs
    ensures y != id ==> (y in Toggle(xs, id) <==> y in xs)
  {
    if id in xs {
      var r := Toggle(xs, id);
      if y != id && y in xs {
        var k :| 0 <= k < |xs| && xs[k] == y;
      }
    }
  }

  lemma {:induction false} FilterKeepsDistinct(xs: seq<int>, p: int -> bool)
    requires Distinct(xs)
    ensures Distinct(Filter(xs, p))
  {
    if xs != [] {
      assert Distinct(xs[1..]) by {
        forall i, j | 0 <= i < j < |xs[1..]| ensures xs[1..][i] != xs[1..][j] {
          assert xs[1..][i] == xs[i + 1] && xs[1..][j] == xs[j + 1];
        }
      }
      FilterKeepsDistinct(xs[1..], p);
      var rest := Filter(xs[1..], p);
      if p(xs[0]) {
        forall k | 0 <= k < |rest| ensures rest[k] != xs[0] {
          var m :| 0 <= m < |xs[1..]| && xs[1..][m] == rest[k];
          assert xs[m + 1] == rest[k];
        }
      }
    }
  }

  /** The selection never holds an id twice. */
  lemma ToggleKeepsDistinct(xs: seq<int>, id: int)
    requires Distinct(xs)
    ensures Distinct(Toggle(xs, id))
  {
    if id in xs {
      FilterKeepsDistinct(xs, (x: int) => x != id);
    }
  }

  /** Toggling the same id twice restores the selection's members; from an
      unselected id it restores the selection itself. */
  lemma ToggleTwice(xs: seq<int>, id: int, y: int)
    ensures y in Toggle(Toggle(xs, id), id) <==> y in xs
    ensures id !in xs ==> Toggle(Toggle(xs, id), id) == xs
  {
    ToggleMembership(xs, id, y);
    ToggleMembership(Toggle(xs, id), id, y);
    if id !in xs {
      FilterAppend(xs, [id], (x: int) => x != id);
      FilterKeepsAllOf(xs, id);
      assert Filter([id], (x: int) => x != id) == [];
      assert Toggle(xs, id) == xs + [id];
    }
  }

  lemma {:induction false} FilterKeepsAllOf(xs: seq<int>, id: int)
    requires id !in xs
    ensures Filter(xs, (x: int) => x != id) == xs
  {
    if xs != [] {
      FilterKeepsAllOf(xs[1..], id);
    }
  }

  // ---------------------------------------------------------------------
  // Validation and submit
  // ---------------------------------------------------------------------

  const NameRequired := "Le nom de la liste est requis."
  const SelectionRequired := "Veuillez sélectionner au moins un candidat."

  /** `validateForm`: the errors by field. */
  function ValidateList(nom: string, candidats: seq<int>): (errs: map<string, string>)
    ensures "nom" in errs <==> IsBlank(nom)
    ensures "candidats" in errs <==> candidats == []
    ensures errs.Keys <= {"nom", "candidats"}
    ensures "nom" in errs ==> errs["nom"] == NameRequired
    ensures "candidats" in errs ==> errs["candidats"] == SelectionRequired
  {
    var e := if IsBlank(nom) then map["nom" := NameRequired] else map[];
    if candidats == [] then e["candidats" := SelectionRequired] else e
  }

  /** The list validates exactly when it has a non-blank name and at least
      one candidate. */
  lemma ValidListIff(nom: string, candidats: seq<int>)
    ensures ValidateList(nom, candidats) == map[] <==> !IsBlank(nom) && candidats != []
  {
    if IsBlank(nom) {
      assert "nom" in ValidateList(nom, candidats);
    } else if candidats == [] {
      assert "candidats" in ValidateList(nom, candidats);
    }
  }

  const ListCreated := "Liste de candidats ajoutée avec succès !"
  const CreateFailed := "Erreur lors de la création de la liste de candidats."
  const CreateForbidden := "Vous n’êtes pas autorisé à créer une liste de candidats."

  /** The creation page's state: the form, its errors, the candidates
      loaded, the search term and every list posted. */
  class ListCreatePage {
    var nom: string
    var candidats: seq<int>
    var formErrors: map<string, string>
    var searchTerm: string
    var notification: Option<string>
    var navigatedWith: Option<string>
    var posted: seq<(string, seq<int>)>

    /** The selection holds no id twice. */
    ghost predicate Valid()
      reads this
    {
      Distinct(candidats)
    }

    constructor ()
      ensures Valid()
      ensures nom == "" && candidats == [] && formErrors == map[] && searchTerm == ""
      ensures notification == None && navigatedWith == None && posted == []
    {
      nom := "";
      candidats := [];
      formErrors := map[];
      searchTerm := "";
      notification := None;
      navigatedWith := None;
      posted := [];
    }

    /** `handleInputChange` for the list's name. */
    method HandleNameChange(value: string)
      modifies this`nom, this`formErrors
      ensures nom == value && formErrors == old(formErrors)["nom" := ""]
    {
      nom := value;
      formErrors := formErrors["nom" := ""];
    }

    method HandleCheckboxChange(id: int)
      requires Valid()
      modifies this`candidats, this`formErrors
      ensures Valid()
      ensures candidats == Toggle(old(candidats), id)
      ensures formErrors == old(formErrors)["candidats" := ""]
    {
      ToggleKeepsDistinct(candidats, id);
      if id in candidats {
        candidats := Filter(candidats, (x: int) => x != id);
      } else {
        candidats := candidats + [id];
      }
      formErrors := formErrors["candidats" := ""];
    }

    /** `handleFormSubmit`: with errors, show them and post nothing; else post
      the name and the ids, then navigate to the election management page
      with the success text, or show why the post was refused (`failure`). */
    method HandleFormSubmit(failure: Option<Failure>)
      modifies this`formErrors, this`posted, this`notification, this`navigatedWith
      ensures var errs := ValidateList(nom, candidats);
        && (errs != map[] ==> formErrors == errs && posted == old(posted)
                              && notification == old(notification) && navigatedWith == old(navigatedWith))
        && (errs == map[] ==> formErrors == old(formErrors) && posted == old(posted) + [(nom, candidats)])
      ensures ValidateList(nom, candidats) == map[] && failure.None? ==>
        navigatedWith == Some(ListCreated) && notification == old(notification)
      ensures ValidateList(nom, candidats) == map[] && failure.Some? ==>
        navigatedWith == old(navigatedWith) && notification == Some(SubmitErrorMessage(failure.value, CreateFailed, CreateForbidden))
    {
      var errors := ValidateList(nom, candidats);
      if |errors| > 0 {
        formErrors := errors;
        return;
      }
      posted := posted + [(nom, candidats)];
      if failure.None? {
        navigatedWith := Some(ListCreated);
      } else {
        notification := Some(SubmitErrorMessage(failure.value, CreateFailed, CreateForbidden));
      }
    }
  }

  // ---------------------------------------------------------------------
  // Candidate search
  // ---------------------------------------------------------------------

  /** A user as `/api/users/` returns it, with the fields the page reads. */
  datatype Candidate = Candidate(
    id: int,
    nom: Option<string>,
    matricule: Option<string>,
    activites: Option<seq<Option<string>>>)

  /** `t.toLowerCase().includes(q.toLowerCase())`. */
  predicate TextMatches(t: string, q: string) {
    Contains(LowerStr(t), LowerStr(q))
  }

  /** `activites.some(a => a.nom.toLowerCase().includes(q))`: stops at the
      first match; an unnamed activity reached before one throws. */
  function SomeActivityMatches(acts: seq<Option<string>>, q: string): (r: Option<bool>)
    ensures r == Some(true) ==> exists i :: 0 <= i < |acts| && acts[i].Some? && TextMatches(acts[i].value, q)
    ensures r.None? ==> exists i :: 0 <= i < |acts| && acts[i].None?
    ensures (forall i :: 0 <= i < |acts| ==> acts[i].Some?) ==>
      r == Some(exists i :: 0 <= i < |acts| && TextMatches(acts[i].value, q))
  {
    if acts == [] then Some(false)
    else if acts[0].None? then None
    else if TextMatches(acts[0].value, q) then Some(true)
    else
      var rest := SomeActivityMatches(acts[1..], q);
      assert rest == Some(true) ==> exists i :: 0 <= i < |acts| && acts[i].Some? && TextMatches(acts[i].value, q) by {
        if rest == Some(true) {
          var k :| 0 <= k < |acts[1..]| && acts[1..][k].Some? && TextMatches(acts[1..][k].value, q);
          assert acts[k + 1] == acts[1..][k];
        }
      }
      assert rest.None? ==> exists i :: 0 <= i < |acts| && acts[i].None? by {
        if rest.None? {
          var k :| 0 <= k < |acts[1..]| && acts[1..][k].None?;
          assert acts[k + 1] == acts[1..][k];
        }
      }
      assert (forall i :: 0 <= i < |acts| ==> acts[i].Some?) ==>
        rest == Some(exists i :: 0 <= i < |acts| && TextMatches(acts[i].value, q)) by {
        if forall i :: 0 <= i < |acts| ==> acts[i].Some? {
          assert forall i :: 0 <= i < |acts[1..]| ==> acts[1..][i] == acts[i + 1];
          if exists i :: 0 <= i < |acts| && TextMatches(acts[i].value, q) {
            var i :| 0 <= i < |acts| && TextMatches(acts[i].value, q);
            assert i != 0;
            assert acts[1..][i - 1] == acts[i];
          }
        }
      }
      rest
  }

  /** Every field the search may read is present. */
  predicate FullyNamed(c: Candidate) {
    c.nom.Some? && c.matricule.Some? && c.activites.Some?
    && forall i :: 0 <= i < |c.activites.value| ==> c.activites.value[i].Some?
  }

  /** What the search means on a complete record: the query occurs in the
      name, the registration number or some activity's name. */
  predicate Matches(c: Candidate, q: string)
    requires FullyNamed(c)
  {
    TextMatches(c.nom.value, q) || TextMatches(c.matricule.value, q)
    || exists i :: 0 <= i < |c.activites.value| && TextMatches(c.activites.value[i].value, q)
  }

  /** The search filter's callback, evaluated left to right. */
  function CandidateMatches(c: Candidate, q: string): (r: Option<bool>)
    ensures FullyNamed(c) ==> r == Some(Matches(c, q))
    ensures c.nom.Some? && TextMatches(c.nom.value, q) ==> r == Some(true)
    ensures c.nom.None? ==> r.None?
  {
    match c.nom
    case None => None
    case Some(n) =>
      if TextMatches(n, q) then Some(true)
      else match c.matricule
        case None => None
        case Some(m) =>
          if TextMatches(m, q) then Some(true)
          else match c.activites
            case None => None
            case Some(acts) => SomeActivityMatches(acts, q)
  }

  /** `candidates.filter(...)`: the candidates kept, or `None` when the
      callback throws on one of them. */
  function SearchCandidates(cs: seq<Candidate>, q: string): (r: Option<seq<Candidate>>)
    ensures r.None? <==> exists i :: 0 <= i < |cs| && CandidateMatches(cs[i], q).None?
    ensures r.Some? ==> r.value == Filter(cs, (c: Candidate) => CandidateMatches(c, q) == Some(true))
  {
    if cs == [] then Some([])
    else
      var head := CandidateMatches(cs[0], q);
      var rest := SearchCandidates(cs[1..], q);
      assert rest.None? <==> exists i :: 1 <= i < |cs| && CandidateMatches(cs[i], q).None? by {
        if rest.None? {
          var k :| 0 <= k < |cs[1..]| && CandidateMatches(cs[1..][k], q).None?;
          assert cs[k + 1] == cs[1..][k];
        }
        if exists i :: 1 <= i < |cs| && CandidateMatches(cs[i], q).None? {
          var i :| 1 <= i < |cs| && CandidateMatches(cs[i], q).None?;
          assert cs[1..][i - 1] == cs[i];
        }
      }
      if head.None? || rest.None? then None
      else if head.value then Some([cs[0]] + rest.value)
      else rest
  }

  /** On complete records the search keeps exactly the matching candidates. */
  lemma SearchFindsMatches(cs: seq<Candidate>, q: string)
    requires forall i :: 0 <= i < |cs| ==> FullyNamed(cs[i])
    ensures SearchCandidates(cs, q).Some?
    ensures forall i :: 0 <= i < |cs| ==> (cs[i] in SearchCandidates(cs, q).value <==> Matches(cs[i], q))
  {
    var r := SearchCandidates(cs, q);
    forall i | 0 <= i < |cs| ensures cs[i] in r.value <==> Matches(cs[i], q) {
      if cs[i] in r.value {
        var k :| 0 <= k < |r.value| && r.value[k] == cs[i];
      }
    }
  }

  /** A candidate whose name matches is kept by the filter even when its
      registration number or activities are missing: the `||` never reads
      them. The rendering of its row still reads `activites`. */
  lemma NameMatchShortCircuits(c: Candidate, q: string)
    requires c.nom.Some? && TextMatches(c.nom.value, q)
    ensures SearchCandidates([c], q) == Some([c])
  {
    var cs := [c];
    assert cs[0] == c && cs[1..] == [];
    assert CandidateMatches(cs[0], q) == Some(true);
    assert SearchCandidates(cs[1..], q) == Some([]);
    assert [cs[0]] + [] == cs;
  }

  /** A candidate without a name makes the whole search throw. */
  lemma NamelessCandidateThrows(cs: seq<Candidate>, i: int, q: string)
    requires 0 <= i < |cs| && cs[i].nom.None?
    ensures SearchCandidates(cs, q).None?
  {
  }

  /** The search ignores letter case on both sides. */
  lemma TextMatchesIgnoresCase(t: string, q: string)
    ensures TextMatches(t, q) <==> TextMatches(LowerStr(t), LowerStr(q))
  {
    LowerStrIdempotent(t);
    LowerStrIdempotent(q);
  }

  /** The empty term keeps every complete record. */
  lemma EmptyTermKeepsAll(cs: seq<Candidate>)
    requires forall i :: 0 <= i < |cs| ==> FullyNamed(cs[i])
    ensures SearchCandidates(cs, "").Some?
    ensures forall i :: 0 <= i < |cs| ==> cs[i] in SearchCandidates(cs, "").value
  {
    forall i | 0 <= i < |cs| ensures Matches(cs[i], "") {
      assert StartsWith(LowerStr(cs[i].nom.value), LowerStr(""));
    }
    SearchFindsMatches(cs, "");
  }

  // ---------------------------------------------------------------------
  // Activities label
  // ---------------------------------------------------------------------

  /** On this page an unknown activity is shown by its own name. */
  lemma UnknownActivityShownRaw(n: string)
    requires n !in {"DANSE", "SPORT", "CHANT", "DESSIN", "SLAM"}
    ensures Labels.ActivitesLabel([n], true) == n
  {
  }

  /** Two known activities read as their labels joined by ", ". */
  lemma KnownActivitiesJoined()
    ensures Labels.ActivitesLabel(["SPORT", "DANSE"], true) == "Sport, Danse"
    ensures Labels.ActivitesLabel([], true) == "Aucune"
  {
    var f := (n: string) => Labels.ActiviteLabel(n, if true then n else "Inconnu");
    assert Labels.MapLabels(["SPORT", "DANSE"], f) == ["Sport", "Danse"];
  }
}
