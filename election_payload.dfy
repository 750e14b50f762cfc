// What the election pages send and how they read a stored election back:
// the criteria built on creation, the edit page's load and save, and the
// defaults the details and results pages fill in.
//
// Class criteria change type on the way: the creation page sends numbers,
// the edit page sends strings, and the vote page compares strings. The
// lemmas below state what each step does to the classes a voter may have.

module ElectionPayload {
  import opened Common
  import opened Eligibility
  import opened ElectionForm

  /** `classe.map(Number).filter(c => c)`: each text read as a number, with
      0 and NaN dropped. */
  function CreateClasses(sel: seq<string>): (r: seq<int>)
    ensures |r| <= |sel|
    ensures forall i :: 0 <= i < |r| ==> r[i] != 0
  {
    if sel == [] then []
    else
      var rest := CreateClasses(sel[1..]);
      match JsNumber(sel[0])
      case Some(n) => if n != 0 then [n] + rest else rest
      case None => rest
  }

  function AsNumbers(xs: seq<int>): (r: seq<JsVal>)
    ensures |r| == |xs| && forall i :: 0 <= i < |xs| ==> r[i] == JsNum(xs[i])
  {
    if xs == [] then [] else [JsNum(xs[0])] + AsNumbers(xs[1..])
  }

  function AsStrings(xs: seq<string>): (r: seq<JsVal>)
    ensures |r| == |xs| && forall i :: 0 <= i < |xs| ==> r[i] == JsStr(xs[i])
  {
    if xs == [] then [] else [JsStr(xs[0])] + AsStrings(xs[1..])
  }

  predicate NonEmptyText(m: string) { m != "" }

  /** `c` is the creation page's `allowed_voter_criteria` for the form's
      criteria `f`: classes as numbers, exactly the non-empty mentions,
      activities only when some are chosen, sport types only when SPORT is
      among them and some are chosen. */
  predicate IsCreateCriteria(f: FormCriteria, c: Criteria) {
    && c.classe == Some(AsNumbers(CreateClasses(f.classe)))
    && c.mention.Some?
    && (forall i :: 0 <= i < |c.mention.value| ==> c.mention.value[i] != "" && c.mention.value[i] in f.mention)
    && (forall i :: 0 <= i < |f.mention| && f.mention[i] != "" ==> f.mention[i] in c.mention.value)
    && c.activite == (if |f.activite| > 0 then Some(f.activite) else None)
    && (c.sportType.Some? <==> |f.activite| > 0 && "SPORT" in f.activite && |f.sportType| > 0)
    && (c.sportType.Some? ==> c.sportType.value == f.sportType)
  }

  /** The criteria the creation page builds, key by key. */
  method BuildCreateCriteria(f: FormCriteria) returns (c: Criteria)
    ensures IsCreateCriteria(f, c)
  {
    c := Criteria(Some(AsNumbers(CreateClasses(f.classe))), Some(Filter(f.mention, NonEmptyText)), None, None);
    if |f.activite| > 0 {
      c := c.(activite := Some(f.activite));
      if "SPORT" in c.activite.value && |f.sportType| > 0 {
        c := c.(sportType := Some(f.sportType));
      }
    }
  }

  /** What the creation page posts. */
  datatype ElectionPayload = ElectionPayload(
    nom: string,
    startdate: DateField,
    enddate: DateField,
    listeCandidatsId: int,
    criteria: Criteria,
    statut: Option<string>)

  datatype Result<T> = Ok(value: T) | Err(message: string)

  /** `handleFormSubmit` of the creation page: no list, no request. */
  method CreatePayload(f: FormData) returns (r: Result<ElectionPayload>)
    ensures r.Err? <==> !HasList(f)
    ensures r.Err? ==> r.message == ListRequired
    ensures r.Ok? ==> r.value.listeCandidatsId == f.listeCandidats.value && r.value.nom == f.nom
    ensures r.Ok? ==> r.value.startdate == f.startDate && r.value.enddate == f.endDate
    ensures r.Ok? ==> r.value.statut.None? && IsCreateCriteria(f.criteria, r.value.criteria)
    ensures r.Ok? ==> forall i :: 0 <= i < |r.value.criteria.classe.value| ==> r.value.criteria.classe.value[i].JsNum?
  {
    if !HasList(f) {
      return Err(ListRequired);
    }
    var crit := BuildCreateCriteria(f.criteria);
    r := Ok(ElectionPayload(f.nom, f.startDate, f.endDate, f.listeCandidats.value, crit, None));
  }

  /** If the classes are stored as sent, a created election that restricts
      classes admits no voter on the vote page. */
  lemma CreatedClassRestrictionAdmitsNone(sel: seq<string>, classe: int)
    requires |CreateClasses(sel)| > 0
    ensures !ClassAllowed(Some(AsNumbers(CreateClasses(sel))), classe)
  {
    NumericClassesExcludeEveryone(AsNumbers(CreateClasses(sel)), classe);
  }

  /** `classe?.map(String) || []` of the edit page's load. */
  function EditLoadClasses(crit: Option<seq<JsVal>>): (r: seq<string>)
    ensures crit.None? ==> r == []
    ensures crit.Some? ==> |r| == |crit.value| && forall i :: 0 <= i < |r| ==> r[i] == JsValToString(crit.value[i])
  {
    if crit.None? then [] else MapToString(crit.value)
  }

  function MapToString(xs: seq<JsVal>): (r: seq<string>)
    ensures |r| == |xs| && forall i :: 0 <= i < |xs| ==> r[i] == JsValToString(xs[i])
  {
    if xs == [] then [] else [JsValToString(xs[0])] + MapToString(xs[1..])
  }

  /** The criteria of the edit page's load. */
  function EditLoadCriteria(c: Criteria): (r: FormCriteria)
    ensures r.classe == EditLoadClasses(c.classe)
    ensures r.mention == OrEmpty(c.mention) && r.activite == OrEmpty(c.activite) && r.sportType == OrEmpty(c.sportType)
  {
    FormCriteria(EditLoadClasses(c.classe), OrEmpty(c.mention), OrEmpty(c.activite), OrEmpty(c.sportType))
  }

  /** The criteria of the edit page's save: classes as strings, the rest as
      in the form. */
  function EditSaveCriteria(f: FormCriteria): (c: Criteria)
    ensures c.classe == Some(AsStrings(f.classe))
    ensures c.mention == Some(f.mention) && c.activite == Some(f.activite) && c.sportType == Some(f.sportType)
  {
    Criteria(Some(AsStrings(f.classe)), Some(f.mention), Some(f.activite), Some(f.sportType))
  }

  /** Loading a stored election into the edit form and saving it unchanged
      repairs numeric classes: the voters admitted are then exactly those
      whose class was stored, as a number or as its decimal string. */
  lemma EditRepairsClasses(stored: seq<JsVal>, classe: int)
    requires |stored| > 0
    ensures var saved := EditSaveCriteria(EditLoadCriteria(Criteria(Some(stored), None, None, None))).classe;
      ClassAllowed(saved, classe) <==> exists i :: 0 <= i < |stored| && JsValToString(stored[i]) == JsString(classe)
  {
    var saved := EditSaveCriteria(EditLoadCriteria(Criteria(Some(stored), None, None, None))).classe.value;
    if JsStr(JsString(classe)) in saved {
      var i :| 0 <= i < |saved| && saved[i] == JsStr(JsString(classe));
      assert JsValToString(stored[i]) == JsString(classe);
    }
    if exists i :: 0 <= i < |stored| && JsValToString(stored[i]) == JsString(classe) {
      var i :| 0 <= i < |stored| && JsValToString(stored[i]) == JsString(classe);
      assert saved[i] == JsStr(JsString(classe));
    }
  }

  /** A number stored at creation is admitted after an edit save. */
  lemma EditAdmitsCreatedClass(stored: seq<JsVal>, i: int)
    requires 0 <= i < |stored| && stored[i].JsNum?
    ensures ClassAllowed(EditSaveCriteria(EditLoadCriteria(Criteria(Some(stored), None, None, None))).classe, stored[i].n)
  {
    EditRepairsClasses(stored, stored[i].n);
  }

  /** A class as the class select writes it: `String(n)` for a nonzero n. */
  ghost predicate IsClassText(t: string) {
    exists n :: n != 0 && t == JsString(n)
  }

  /** Creating from the class select and loading into the edit form gives
      back the texts selected. */
  lemma {:induction false} CreateThenEditLoad(sel: seq<string>)
    requires forall i :: 0 <= i < |sel| ==> IsClassText(sel[i])
    ensures EditLoadClasses(Some(AsNumbers(CreateClasses(sel)))) == sel
  {
    if sel != [] {
      assert IsClassText(sel[0]);
      var n :| n != 0 && sel[0] == JsString(n);
      JsNumberOfJsString(n);
      forall i | 0 <= i < |sel[1..]| ensures IsClassText(sel[1..][i]) {
        assert sel[1..][i] == sel[i + 1];
      }
      CreateThenEditLoad(sel[1..]);
      assert CreateClasses(sel) == [n] + CreateClasses(sel[1..]);
      assert AsNumbers(CreateClasses(sel)) == [JsNum(n)] + AsNumbers(CreateClasses(sel[1..]));
    }
  }

  /** What the edit page's load puts in the form: `listeCandidats?.id ||
      null`, `statut || 'ouvert'`. */
  function EditLoadList(listId: Option<int>): (r: Option<int>)
    ensures r.Some? ==> r.value != 0
    ensures listId.Some? && listId.value != 0 ==> r == listId
  {
    if listId.Some? && listId.value != 0 then listId else None
  }

  function StatutOrDefault(statut: string): (r: string)
    ensures statut != "" ==> r == statut
    ensures statut == "" ==> r == "ouvert"
  {
    if statut != "" then statut else "ouvert"
  }

  /** `handleFormSubmit` of the edit page: no list, no request; the status
      falls back to the stored one when the form's is empty. */
  function EditPayload(f: FormData, storedStatut: string): (r: Result<ElectionPayload>)
    ensures r.Err? <==> !HasList(f)
    ensures r.Err? ==> r.message == ListRequired
    ensures r.Ok? ==> r.value.criteria == EditSaveCriteria(f.criteria) && r.value.listeCandidatsId == f.listeCandidats.value
    ensures r.Ok? ==> r.value.statut == Some(if f.statut != "" then f.statut else storedStatut)
  {
    if !HasList(f) then Err(ListRequired)
    else Ok(ElectionPayload(f.nom, f.startDate, f.endDate, f.listeCandidats.value, EditSaveCriteria(f.criteria),
                            Some(if f.statut != "" then f.statut else storedStatut)))
  }

  /** Every criterion that is not an array reads as [] on the admin results
      page; a missing criteria object as four empty lists. */
  function NormaliseCriteria(c: Criteria): (r: Criteria)
    ensures r.classe.Some? && r.mention.Some? && r.activite.Some? && r.sportType.Some?
    ensures c.classe.Some? ==> r.classe == c.classe
    ensures c.mention.Some? ==> r.mention == c.mention
    ensures c.activite.Some? ==> r.activite == c.activite
    ensures c.sportType.Some? ==> r.sportType == c.sportType
  {
    Criteria(Some(OrEmpty(c.classe)), Some(OrEmpty(c.mention)), Some(OrEmpty(c.activite)), Some(OrEmpty(c.sportType)))
  }

  /** The defaults change no one's eligibility: a missing list and an empty
      one both restrict nothing. */
  lemma NormaliseKeepsEligibility(c: Criteria, v: Voter)
    ensures IsEligible(NormaliseCriteria(c), v) <==> IsEligible(c, v)
  {
  }

  /** `!id || isNaN(parseInt(id))`: the results page fetches only for an id
      that starts with a digit. */
  function ResultsRequestId(id: string): (r: Option<int>)
    ensures r.Some? <==> id != "" && IsDigit(id[0])
  {
    if id == "" then None else JsParseInt(JsStr(id))
  }

  /** The details page warns about an election without candidates. */
  function DetailsLoadWarning(candidateCount: nat): (r: Option<string>)
    ensures r.Some? <==> candidateCount == 0
  {
    if candidateCount == 0 then Some("Attention : Cette élection n’a aucun candidat associé.") else None
  }
}
