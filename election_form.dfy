// The election form shared by the creation and edit pages: its validation,
// its submit handler, the change handlers that rewrite the form data and the
// effect that clears the sport types when SPORT is no longer selected.

module ElectionForm {
  import opened Common
  import opened Elections

  /** The four criteria lists of the form; the class select yields strings. */
  datatype FormCriteria = FormCriteria(classe: seq<string>, mention: seq<string>, activite: seq<string>, sportType: seq<string>)

  datatype Criterion = ClasseField | MentionField | ActiviteField | SportTypeField

  /** `formData`. The dates are the formatted texts of the date pickers
      (`NoDate` for ''), the candidate list the selected list's id. */
  datatype FormData = FormData(
    nom: string,
    startDate: DateField,
    endDate: DateField,
    listeCandidats: Option<int>,
    criteria: FormCriteria,
    statut: string)

  /** `formData.listeCandidats` is truthy: present and not 0. */
  predicate HasList(f: FormData) {
    f.listeCandidats.Some? && f.listeCandidats.value != 0
  }

  /** `moment(start).isSameOrAfter(moment(end))`: false unless both parse. */
  predicate StartNotBeforeEnd(f: FormData) {
    f.startDate.At? && f.endDate.At? && f.startDate.ms >= f.endDate.ms
  }

  const NomRequired := "Le nom de l’élection est requis."
  const StartRequired := "La date de début est requise."
  const EndRequired := "La date de fin est requise."
  const ListRequired := "Veuillez sélectionner une liste de candidats."
  const ListEmpty := "La liste de candidats sélectionnée doit contenir au moins un candidat."
  const EndBeforeStart := "La date de fin doit être après la date de début."

  /** The browser's constraint validation of the `required` inputs: a
      non-empty name and a date selected in each picker. A picker whose text
      does not parse selects nothing and shows an empty input. Until this
      holds the submit event never reaches `onSubmit`; a name of spaces
      passes it and is left to `validateForm`. */
  predicate BrowserAccepts(f: FormData) {
    f.nom != "" && f.startDate.At? && f.endDate.At?
  }

  /** `validateForm`: the errors by field; `selectedCount` is the number of
      candidates of the selected list. */
  function ValidateForm(f: FormData, selectedCount: nat): (errs: map<string, string>)
    ensures "nom" in errs <==> IsBlank(f.nom)
    ensures "startDate" in errs <==> !IsSet(f.startDate)
    ensures "endDate" in errs <==> !IsSet(f.endDate) || StartNotBeforeEnd(f)
    ensures "listeCandidats" in errs <==> !HasList(f) || selectedCount == 0
    ensures errs.Keys <= {"nom", "startDate", "endDate", "listeCandidats"}
    ensures "endDate" in errs && IsSet(f.startDate) && IsSet(f.endDate) ==> errs["endDate"] == EndBeforeStart
    ensures "listeCandidats" in errs ==> errs["listeCandidats"] == (if HasList(f) then ListEmpty else ListRequired)
  {
    var e0: map<string, string> := map[];
    var e1 := if IsBlank(f.nom) then e0["nom" := NomRequired] else e0;
    var e2 := if !IsSet(f.startDate) then e1["startDate" := StartRequired] else e1;
    var e3 := if !IsSet(f.endDate) then e2["endDate" := EndRequired] else e2;
    var e4 := if !HasList(f) then e3["listeCandidats" := ListRequired] else e3;
    var e5 := if HasList(f) && selectedCount == 0 then e4["listeCandidats" := ListEmpty] else e4;
    if IsSet(f.startDate) && IsSet(f.endDate) && StartNotBeforeEnd(f) then e5["endDate" := EndBeforeStart] else e5
  }

  /** A form passes validation exactly when it has a name, both dates, a
      list with candidates, and, when both dates parse, the start strictly
      before the end. */
  lemma ValidFormIff(f: FormData, selectedCount: nat)
    ensures ValidateForm(f, selectedCount) == map[] <==>
      && !IsBlank(f.nom) && IsSet(f.startDate) && IsSet(f.endDate)
      && HasList(f) && selectedCount > 0
      && (f.startDate.At? && f.endDate.At? ==> f.startDate.ms < f.endDate.ms)
  {
    var errs := ValidateForm(f, selectedCount);
    if errs != map[] {
      var k :| k in errs;
    }
  }

  /** The candidates of the selected list, found by id in the loaded lists
      (`(id, number of candidates)`); none when no list is selected or found. */
  function SelectedCount(listeCandidats: Option<int>, lists: seq<(int, nat)>): (n: nat)
    ensures listeCandidats.None? || listeCandidats.value == 0 ==> n == 0
    ensures n > 0 ==> exists i :: 0 <= i < |lists| && lists[i].0 == listeCandidats.value && lists[i].1 == n
  {
    if listeCandidats.None? || listeCandidats.value == 0 then 0
    else FindCount(listeCandidats.value, lists)
  }

  /** `candidateLists.find(l => l.id === id)?.candidats || []`, by count. */
  function FindCount(id: int, lists: seq<(int, nat)>): (n: nat)
    ensures n > 0 ==> exists i :: 0 <= i < |lists| && lists[i].0 == id && lists[i].1 == n
    ensures (forall i :: 0 <= i < |lists| ==> lists[i].0 != id) ==> n == 0
  {
    if lists == [] then 0
    else if lists[0].0 == id then lists[0].1
    else
      var n := FindCount(id, lists[1..]);
      assert n > 0 ==> exists i :: 0 <= i < |lists| && lists[i].0 == id && lists[i].1 == n by {
        if n > 0 {
          var k :| 0 <= k < |lists[1..]| && lists[1..][k].0 == id && lists[1..][k].1 == n;
          assert lists[k + 1] == lists[1..][k];
        }
      }
      n
  }

  /** The sport types are only kept while SPORT is among the activities. */
  predicate SportConsistent(c: FormCriteria) {
    "SPORT" !in c.activite ==> c.sportType == []
  }

  /** The effect that runs whenever the activities change. */
  function SportReset(c: FormCriteria): (r: FormCriteria)
    ensures SportConsistent(r)
    ensures r.classe == c.classe && r.mention == c.mention && r.activite == c.activite
    ensures "SPORT" in c.activite ==> r == c
  {
    if "SPORT" !in c.activite then c.(sportType := []) else c
  }

  /** `handleMultiSelectChange('allowed_voter_criteria', sub, options)`:
      the chosen values, or [] when the select is cleared. */
  function SetCriterion(c: FormCriteria, sub: Criterion, values: Option<seq<string>>): (r: FormCriteria)
    ensures var v := if values.Some? then values.value else [];
      match sub
      case ClasseField => r == c.(classe := v)
      case MentionField => r == c.(mention := v)
      case ActiviteField => r == c.(activite := v)
      case SportTypeField => r == c.(sportType := v)
  {
    var v := if values.Some? then values.value else [];
    match sub
    case ClasseField => c.(classe := v)
    case MentionField => c.(mention := v)
    case ActiviteField => c.(activite := v)
    case SportTypeField => c.(sportType := v)
  }

  /** Sport types chosen while SPORT is selected survive a change of any
      other criterion; dropping SPORT clears them. */
  lemma SportTypesFollowActivities(c: FormCriteria, sub: Criterion, values: Option<seq<string>>)
    requires SportConsistent(c)
    ensures var r := SportReset(SetCriterion(c, sub, values));
      && (sub != ActiviteField && sub != SportTypeField ==> r.sportType == c.sportType)
      && (sub == ActiviteField && "SPORT" !in r.activite ==> r.sportType == [])
      && (sub == ActiviteField && "SPORT" in r.activite ==> r.sportType == c.sportType)
  {
  }

  /** The form data the creation page's `electionData` yields: an empty name,
      no dates, no list (`'' || null`), no criteria and the status `ouvert`. */
  function CreateInitial(): (f: FormData)
    ensures IsBlank(f.nom) && !IsSet(f.startDate) && !IsSet(f.endDate) && !HasList(f)
    ensures f.criteria == FormCriteria([], [], [], []) && f.statut == "ouvert"
  {
    FormData("", NoDate, NoDate, None, FormCriteria([], [], [], []), "ouvert")
  }

  /** What a render of the page around the form leaves in the form, as
      written. The creation page builds a new `electionData` object on every
      render, so the effect on `[electionData]` puts the initial data back,
      and the sport reset follows as at mount. The edit page passes its state
      object, set once at load, and the form keeps its data. */
  function AfterPageRender(isEdit: bool, f: FormData, init: FormData): FormData {
    if isEdit then f else init.(criteria := SportReset(init.criteria))
  }

  /** On the creation page any render empties the form: the data survives
      exactly when nothing was entered, and what is left never passes the
      browser's checks. */
  lemma CreateRenderDiscardsInput(f: FormData)
    ensures AfterPageRender(false, f, CreateInitial()) == f <==> f == CreateInitial()
    ensures !BrowserAccepts(AfterPageRender(false, f, CreateInitial()))
  {
  }

  /** The intended reset: only when the election data itself changes, as with
      an `electionData` object kept the same across renders. */
  function AfterPageRenderIntended(dataChanged: bool, f: FormData, init: FormData): FormData {
    if dataChanged then init.(criteria := SportReset(init.criteria)) else f
  }

  /** Under the intended reset a render that brings no new data keeps what
      was entered, on either page; on the edit page, whose data does not
      change after mount, it is what the code already does. */
  lemma IntendedRenderKeepsInput(isEdit: bool, f: FormData, init: FormData)
    ensures AfterPageRenderIntended(false, f, init) == f
    ensures AfterPageRender(true, f, init) == AfterPageRenderIntended(false, f, init)
  {
  }

  /** The form component: its data and the data it started from, its errors,
      the loaded candidate lists and every `handleSubmit(formData)` call. */
  class FormState {
    const isEdit: bool
    const initial: FormData
    const lists: seq<(int, nat)>
    var formData: FormData
    var errors: map<string, string>
    var selectedCount: nat
    var submitted: seq<FormData>

    /** The sport reset and the candidate-list effects have run. */
    ghost predicate Valid()
      reads this
    {
      SportConsistent(formData.criteria) && selectedCount == SelectedCount(formData.listeCandidats, lists)
    }

    /** Mounting runs the effects once over the initial data. */
    constructor (edit: bool, init: FormData, loaded: seq<(int, nat)>)
      ensures Valid()
      ensures isEdit == edit && initial == init && lists == loaded
      ensures formData == init.(criteria := SportReset(init.criteria))
      ensures errors == map[] && submitted == []
    {
      isEdit := edit;
      initial := init;
      lists := loaded;
      formData := init.(criteria := SportReset(init.criteria));
      errors := map[];
      selectedCount := SelectedCount(init.listeCandidats, loaded);
      submitted := [];
    }

    /** `isFormChanged`: the data differs from what the form started with. */
    predicate IsFormChanged()
      reads this
    {
      formData != initial
    }

    /** In edit mode the submit button waits for a change. */
    predicate SubmitDisabled()
      reads this
    {
      isEdit && !IsFormChanged()
    }

    predicate PublishDisabled(now: int)
      reads this
    {
      PublishDisabledWithCandidates(formData.endDate, formData.statut, selectedCount, now)
    }

    method HandleNomChange(value: string)
      requires Valid()
      modifies this`formData, this`errors
      ensures Valid()
      ensures formData == old(formData).(nom := value) && errors == old(errors)["nom" := ""]
    {
      formData := formData.(nom := value);
      errors := errors["nom" := ""];
    }

    method HandleStartDateChange(date: DateField)
      requires Valid()
      modifies this`formData, this`errors
      ensures Valid()
      ensures formData == old(formData).(startDate := date) && errors == old(errors)["startDate" := ""]
    {
      formData := formData.(startDate := date);
      errors := errors["startDate" := ""];
    }

    method HandleEndDateChange(date: DateField)
      requires Valid()
      modifies this`formData, this`errors
      ensures Valid()
      ensures formData == old(formData).(endDate := date) && errors == old(errors)["endDate" := ""]
    {
      formData := formData.(endDate := date);
      errors := errors["endDate" := ""];
    }

    /** Choosing a list (`None` when cleared), then the effect that looks up
      its candidates. */
    method HandleListChange(selected: Option<int>)
      requires Valid()
      modifies this`formData, this`errors, this`selectedCount
      ensures Valid()
      ensures formData == old(formData).(listeCandidats := selected)
      ensures errors == old(errors)["listeCandidats" := ""]
      ensures selectedCount == SelectedCount(selected, lists)
    {
      formData := formData.(listeCandidats := selected);
      errors := errors["listeCandidats" := ""];
      selectedCount := SelectedCount(selected, lists);
    }

    /** A change of one criterion, then the sport reset effect. */
    method HandleMultiSelectChange(sub: Criterion, values: Option<seq<string>>)
      requires Valid()
      modifies this`formData, this`errors
      ensures Valid()
      ensures formData == old(formData).(criteria := SportReset(SetCriterion(old(formData).criteria, sub, values)))
      ensures errors == old(errors)["allowed_voter_criteria" := ""]
    {
      formData := formData.(criteria := SetCriterion(formData.criteria, sub, values));
      errors := errors["allowed_voter_criteria" := ""];
      SportResetEffect();
    }

    /** A render of the page around the form. The creation page renders again
      when its candidate lists arrive and when its notification is set or
      cleared; the effect on `[electionData]` then resets the form, and the
      list effect follows. The errors stay. */
    method PageRender()
      requires Valid()
      modifies this`formData, this`selectedCount
      ensures Valid()
      ensures formData == AfterPageRender(isEdit, old(formData), initial)
      ensures !isEdit ==> selectedCount == SelectedCount(initial.listeCandidats, lists)
    {
      if !isEdit {
        formData := initial.(criteria := SportReset(initial.criteria));
        selectedCount := SelectedCount(initial.listeCandidats, lists);
      }
    }

    method SportResetEffect()
      modifies this`formData
      ensures formData == old(formData).(criteria := SportReset(old(formData).criteria))
    {
      if "SPORT" !in formData.criteria.activite {
        formData := formData.(criteria := formData.criteria.(sportType := []));
      }
    }

    /** `onSubmit`, once the browser accepts the inputs: the form goes to
      `handleSubmit` exactly when it validates; otherwise the errors are
      shown and nothing is submitted. */
    method OnSubmit()
      requires Valid()
      modifies this`errors, this`submitted
      ensures Valid()
      ensures !BrowserAccepts(formData) ==> submitted == old(submitted) && errors == old(errors)
      ensures BrowserAccepts(formData) ==>
        var errs := ValidateForm(formData, selectedCount);
        if errs == map[] then submitted == old(submitted) + [formData] && errors == old(errors)
        else submitted == old(submitted) && errors == errs
    {
      if !BrowserAccepts(formData) {
        return;
      }
      var newErrors := ValidateForm(formData, selectedCount);
      if |newErrors| > 0 {
        errors := newErrors;
        return;
      }
      submitted := submitted + [formData];
    }
  }

  /** A create the server refuses, as the creation page runs it: the form is
      handed on, the refusal sets the page's notification, and the render
      that follows leaves the form empty again. */
  method RefusedCreate(form: FormState)
    requires form.Valid() && !form.isEdit && form.initial == CreateInitial()
    requires BrowserAccepts(form.formData) && ValidateForm(form.formData, form.selectedCount) == map[]
    modifies form
    ensures form.Valid()
    ensures form.submitted == old(form.submitted) + [old(form.formData)]
    ensures form.formData == CreateInitial() && form.formData != old(form.formData)
  {
    form.OnSubmit();
    CreateRenderDiscardsInput(form.formData);
    form.PageRender();
  }
}
