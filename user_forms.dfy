// The user form shared by the user creation and edit pages, with the load
// and the payloads of those two pages.
//
// The form's fields hold JavaScript values: a text input yields a string, a
// cleared input `null`, and the class select the string of the chosen
// number, while the initial class is a number. `JsVal` keeps these apart,
// since the form compares fields with `!==`.

module UserForms {
  import opened Common

  // ---------------------------------------------------------------------
  // Form data
  // ---------------------------------------------------------------------

  /** The `userData` a page hands to the form; `None` for a missing field. */
  datatype UserData = UserData(
    nom: Option<string>,
    username: Option<string>,
    matricule: Option<string>,
    annee: Option<string>,
    classe: Option<int>,
    mention: Option<string>,
    activiteIds: Option<seq<int>>,
    sportType: Option<string>)

  /** The form's `formData`. */
  datatype UserFormData = UserFormData(
    nom: JsVal,
    username: JsVal,
    matricule: JsVal,
    annee: JsVal,
    password: JsVal,
    fingerprint: JsVal,
    classe: JsVal,
    mention: JsVal,
    activiteIds: seq<int>,
    sportType: JsVal)

  /** The inputs that go through the generic change handler. */
  datatype Field = Nom | Username | Matricule | Annee | Password | Classe | Mention | SportType

  const DefaultAnnee := "2025-2026"
  const DefaultMention := "INFO"
  /** The id of the SPORT activity. */
  const SportId := 2

  /** The form's initial data (and the `initialData` it compares against). */
  function InitialForm(u: UserData): (f: UserFormData)
    ensures f.password == JsStr("") && f.fingerprint == JsStr("")
    ensures f.annee == JsStr(TextOr(u.annee, DefaultAnnee)) && f.mention == JsStr(TextOr(u.mention, DefaultMention))
    ensures u.classe.None? || u.classe.value == 0 ==> f.classe == JsNum(1)
    ensures u.classe.Some? && u.classe.value != 0 ==> f.classe == JsNum(u.classe.value)
    ensures u.activiteIds.None? ==> f.activiteIds == []
    ensures f.sportType.JsNull? <==> u.sportType.None? || u.sportType.value == ""
  {
    UserFormData(
      JsStr(TextOr(u.nom, "")), JsStr(TextOr(u.username, "")), JsStr(TextOr(u.matricule, "")),
      JsStr(TextOr(u.annee, DefaultAnnee)), JsStr(""), JsStr(""),
      JsNum(if u.classe.Some? && u.classe.value != 0 then u.classe.value else 1),
      JsStr(TextOr(u.mention, DefaultMention)),
      if u.activiteIds.Some? then u.activiteIds.value else [],
      if u.sportType.Some? && u.sportType.value != "" then JsStr(u.sportType.value) else JsNull)
  }

  function FieldValue(f: UserFormData, field: Field): JsVal {
    match field
    case Nom => f.nom
    case Username => f.username
    case Matricule => f.matricule
    case Annee => f.annee
    case Password => f.password
    case Classe => f.classe
    case Mention => f.mention
    case SportType => f.sportType
  }

  /** `handleChange` for any input but the activities: the value, or `null`
      for the empty string. */
  function FieldChange(f: UserFormData, field: Field, value: string): (r: UserFormData)
    ensures FieldValue(r, field) == if value == "" then JsNull else JsStr(value)
    ensures forall g :: g != field ==> FieldValue(r, g) == FieldValue(f, g)
    ensures r.activiteIds == f.activiteIds && r.fingerprint == f.fingerprint
  {
    var v := if value == "" then JsNull else JsStr(value);
    match field
    case Nom => f.(nom := v)
    case Username => f.(username := v)
    case Matricule => f.(matricule := v)
    case Annee => f.(annee := v)
    case Password => f.(password := v)
    case Classe => f.(classe := v)
    case Mention => f.(mention := v)
    case SportType => f.(sportType := v)
  }

  /** `handleChange` for the activities: the selected ids, and the sport type
      reset unless SPORT is among them. */
  function ActivitiesChange(f: UserFormData, selected: seq<int>): (r: UserFormData)
    ensures r.activiteIds == selected
    ensures SportId in selected ==> r.sportType == f.sportType
    ensures SportId !in selected ==> r.sportType == JsNull
    ensures forall g :: g != SportType ==> FieldValue(r, g) == FieldValue(f, g)
    ensures r.fingerprint == f.fingerprint
  {
    f.(activiteIds := selected, sportType := if SportId in selected then f.sportType else JsNull)
  }

  /** The sport type is set only while SPORT is selected. */
  predicate SportConsistent(f: UserFormData) {
    SportId !in f.activiteIds ==> f.sportType.JsNull?
  }

  /** The sport select is disabled unless SPORT is selected. */
  predicate SportSelectDisabled(f: UserFormData) {
    SportId !in f.activiteIds
  }

  /** Any activity change makes the form consistent, and a change the inputs
      allow keeps it so. */
  lemma ChangesKeepSportConsistent(f: UserFormData, selected: seq<int>, field: Field, value: string)
    ensures SportConsistent(ActivitiesChange(f, selected))
    ensures SportConsistent(f) && (field == SportType ==> !SportSelectDisabled(f)) ==>
      SportConsistent(FieldChange(f, field, value))
  {
    var r := FieldChange(f, field, value);
    assert FieldValue(r, SportType) == r.sportType;
  }

  // ---------------------------------------------------------------------
  // hasChanges
  // ---------------------------------------------------------------------

  /** `hasModifications` as written: every field compared with `!==`. */
  predicate HasModificationsAsWritten(f: UserFormData, init: UserFormData) {
    f.nom != init.nom || f.username != init.username || f.matricule != init.matricule
    || f.annee != init.annee || f.password != JsStr("") || f.fingerprint != JsStr("")
    || f.classe != init.classe || f.mention != init.mention
    || f.activiteIds != init.activiteIds || f.sportType != init.sportType
  }

  /** What an input shows for a field value: `null` shows as the empty input,
      a number as its decimal text. */
  function Shown(v: JsVal): (r: string)
    ensures v.JsStr? ==> r == v.s
    ensures v.JsNull? ==> r == ""
    ensures v.JsNum? ==> r == JsString(v.n)
  {
    match v
    case JsNull => ""
    case JsNum(n) => JsString(n)
    case JsStr(s) => s
  }

  /** `hasModifications` as evidently intended: a field has changed when what
      its input shows has changed. */
  predicate HasModifications(f: UserFormData, init: UserFormData) {
    Shown(f.nom) != Shown(init.nom) || Shown(f.username) != Shown(init.username)
    || Shown(f.matricule) != Shown(init.matricule) || Shown(f.annee) != Shown(init.annee)
    || Shown(f.password) != "" || Shown(f.fingerprint) != ""
    || Shown(f.classe) != Shown(init.classe) || Shown(f.mention) != Shown(init.mention)
    || f.activiteIds != init.activiteIds || Shown(f.sportType) != Shown(init.sportType)
  }

  /** Typing in a field and then putting back what it showed leaves the form
      unchanged, for every field and every initial user. */
  lemma RevertingRestoresUnchanged(u: UserData, field: Field, v: string)
    ensures var init := InitialForm(u);
      var f := FieldChange(FieldChange(init, field, v), field, Shown(FieldValue(init, field)));
      !HasModifications(f, init)
  {
    var init := InitialForm(u);
    var f := FieldChange(FieldChange(init, field, v), field, Shown(FieldValue(init, field)));
    assert Shown(FieldValue(f, Nom)) == Shown(init.nom);
    assert Shown(FieldValue(f, Username)) == Shown(init.username);
    assert Shown(FieldValue(f, Matricule)) == Shown(init.matricule);
    assert Shown(FieldValue(f, Annee)) == Shown(init.annee);
    assert Shown(FieldValue(f, Password)) == Shown(init.password);
    assert Shown(FieldValue(f, Classe)) == Shown(init.classe);
    assert Shown(FieldValue(f, Mention)) == Shown(init.mention);
    assert Shown(FieldValue(f, SportType)) == Shown(init.sportType);
  }

  /** The intended check never reports a change the written one misses. */
  lemma IntendedImpliesAsWritten(f: UserFormData, init: UserFormData)
    ensures HasModifications(f, init) ==> HasModificationsAsWritten(f, init)
  {
  }

  /** As written, a user without a name whose name field is typed in and
      cleared again still counts as changed, and so does a class chosen away
      and back. */
  lemma RevertedFieldsStayChangedAsWritten(u: UserData)
    requires u.nom.None? && u.classe == Some(2)
    ensures var init := InitialForm(u);
      var f := FieldChange(FieldChange(init, Nom, "a"), Nom, "");
      Shown(f.nom) == Shown(init.nom) && HasModificationsAsWritten(f, init) && !HasModifications(f, init)
    ensures var init := InitialForm(u);
      var f := FieldChange(FieldChange(init, Classe, "3"), Classe, "2");
      Shown(f.classe) == Shown(init.classe) && HasModificationsAsWritten(f, init) && !HasModifications(f, init)
  {
    RevertedNameStaysChanged(u);
    RevertedClassStaysChanged(u);
  }

  /** The name half: `null` typed over and cleared becomes `""`. */
  lemma RevertedNameStaysChanged(u: UserData)
    requires u.nom.None?
    ensures var init := InitialForm(u);
      var f := FieldChange(FieldChange(init, Nom, "a"), Nom, "");
      Shown(f.nom) == Shown(init.nom) && HasModificationsAsWritten(f, init) && !HasModifications(f, init)
  {
    var init := InitialForm(u);
    var f := FieldChange(FieldChange(init, Nom, "a"), Nom, "");
    assert f == init.(nom := JsNull);
    assert init.nom == JsStr("");
  }

  /** The class half: the number 2 chosen away and back becomes the string "2". */
  lemma RevertedClassStaysChanged(u: UserData)
    requires u.classe == Some(2)
    ensures var init := InitialForm(u);
      var f := FieldChange(FieldChange(init, Classe, "3"), Classe, "2");
      Shown(f.classe) == Shown(init.classe) && HasModificationsAsWritten(f, init) && !HasModifications(f, init)
  {
    var init := InitialForm(u);
    var f := FieldChange(FieldChange(init, Classe, "3"), Classe, "2");
    assert f == init.(classe := JsStr("2"));
    assert init.classe == JsNum(2);
    assert JsString(2) == "2" by {
      assert Dec(2) == "2";
    }
  }

  /** `[0-9]{4}`, which an input's `pattern` must match in full. */
  predicate FourDigits(s: string) {
    |s| == 4 && forall i :: 0 <= i < 4 ==> '0' <= s[i] <= '9'
  }

  /** The browser's constraint validation of the form: the name, the username
      and the academic year filled in, the matricule four digits, and the
      password filled in unless editing. The class and mention selects offer
      only non-empty values, so they always pass. Until this holds the submit
      event never reaches `onSubmit`. */
  predicate BrowserAccepts(f: UserFormData, isEdit: bool) {
    && Shown(f.nom) != ""
    && Shown(f.username) != ""
    && FourDigits(Shown(f.matricule))
    && Shown(f.annee) != ""
    && (isEdit || Shown(f.password) != "")
  }

  /** The form component: whether it edits, the data it started from, its
      data, the `hasChanges` flag its effect keeps and every form submitted. */
  class UserFormPage {
    const isEdit: bool
    const initial: UserFormData
    var formData: UserFormData
    var hasChanges: bool
    var submitted: seq<UserFormData>

    /** The effect has run, with the comparison as written, and there is no
        fingerprint input. */
    ghost predicate Valid()
      reads this
    {
      hasChanges == HasModificationsAsWritten(formData, initial) && formData.fingerprint == JsStr("")
    }

    constructor (u: UserData, edit: bool)
      ensures Valid()
      ensures isEdit == edit
      ensures initial == InitialForm(u) && formData == initial && !hasChanges && submitted == []
    {
      isEdit := edit;
      initial := InitialForm(u);
      formData := InitialForm(u);
      hasChanges := false;
      submitted := [];
    }

    /** A change through a text input or a select; a disabled sport select
      takes no input. */
    method HandleChange(field: Field, value: string)
      requires Valid()
      requires field == SportType ==> !SportSelectDisabled(formData)
      modifies this`formData, this`hasChanges
      ensures Valid()
      ensures formData == FieldChange(old(formData), field, value)
      ensures SportConsistent(old(formData)) ==> SportConsistent(formData)
    {
      ChangesKeepSportConsistent(formData, [], field, value);
      formData := FieldChange(formData, field, value);
      hasChanges := HasModificationsAsWritten(formData, initial);
    }

    method HandleActivitiesChange(selected: seq<int>)
      requires Valid()
      modifies this`formData, this`hasChanges
      ensures Valid() && SportConsistent(formData)
      ensures formData == ActivitiesChange(old(formData), selected)
    {
      ChangesKeepSportConsistent(formData, selected, Nom, "");
      formData := ActivitiesChange(formData, selected);
      hasChanges := HasModificationsAsWritten(formData, initial);
    }

    /** `onSubmit`, reachable only through the submit button, which is
      disabled while nothing has changed, and only once the browser accepts
      the inputs. */
    method OnSubmit()
      requires Valid()
      modifies this`submitted
      ensures Valid()
      ensures submitted == old(submitted) + (if hasChanges && BrowserAccepts(formData, isEdit) then [formData] else [])
    {
      if hasChanges && BrowserAccepts(formData, isEdit) {
        submitted := submitted + [formData];
      }
    }
  }

  // ---------------------------------------------------------------------
  // Payloads
  // ---------------------------------------------------------------------

  /** What the pages send; `None` for a key left out, `classe` as
      `parseInt`'s result (`None` for NaN). */
  datatype Payload = Payload(
    nom: JsVal,
    username: JsVal,
    matricule: JsVal,
    annee: JsVal,
    classe: Option<int>,
    mention: JsVal,
    activiteIds: seq<int>,
    sportType: JsVal,
    password: Option<JsVal>,
    fingerprint: Option<JsVal>)

  predicate Truthy(v: JsVal) {
    (v.JsStr? && v.s != "") || (v.JsNum? && v.n != 0)
  }

  /** `btoa('SampleFingerprint6069')`. */
  const DefaultFingerprint := "U2FtcGxlRmluZ2VycHJpbnQ2MDY5"

  /** The creation page's payload. */
  function CreatePayload(f: UserFormData): (p: Payload)
    ensures p.nom == f.nom && p.username == f.username && p.matricule == f.matricule
    ensures p.annee == f.annee && p.mention == f.mention && p.activiteIds == f.activiteIds
    ensures p.classe == JsParseInt(f.classe)
    ensures SportId in f.activiteIds ==> p.sportType == f.sportType
    ensures SportId !in f.activiteIds ==> p.sportType == JsNull
    ensures p.password.None?
    ensures p.fingerprint == Some(if Truthy(f.fingerprint) then f.fingerprint else JsStr(DefaultFingerprint))
  {
    Payload(f.nom, f.username, f.matricule, f.annee, JsParseInt(f.classe), f.mention, f.activiteIds,
            if SportId in f.activiteIds then f.sportType else JsNull,
            None,
            Some(if Truthy(f.fingerprint) then f.fingerprint else JsStr(DefaultFingerprint)))
  }

  /** A class chosen in the select reaches the server as its number; the
      form's own default class 1 too. */
  lemma CreateSendsSelectedClass(f: UserFormData, n: nat)
    ensures f.classe == JsStr(Dec(n)) ==> CreatePayload(f).classe == Some(n)
    ensures f.classe == JsNum(1) ==> CreatePayload(f).classe == Some(1)
  {
    ParseIntOfDec(n);
  }

  /** The form has no fingerprint input, so a user created from it always
      gets the default fingerprint. */
  lemma CreateFromFormUsesDefaultFingerprint(f: UserFormData)
    requires f.fingerprint == JsStr("")
    ensures CreatePayload(f).fingerprint == Some(JsStr(DefaultFingerprint))
  {
  }

  /** A payload built from a consistent form keeps it consistent: no sport
      type without SPORT. */
  lemma PayloadSportConsistent(f: UserFormData)
    ensures CreatePayload(f).sportType != JsNull ==> SportId in CreatePayload(f).activiteIds
    ensures SportConsistent(f) ==> CreatePayload(f).sportType == f.sportType
    ensures EditPayload(f).sportType != JsNull ==> SportId in EditPayload(f).activiteIds
  {
  }

  /** What the creation page hands the form: the year 2024-2025, class 1,
      mention INFO, no activities. */
  const CreateDefaults := UserData(Some(""), Some(""), Some(""), Some("2024-2025"), Some(1), Some("INFO"), Some([]), None)

  lemma CreateFormStartsEmpty()
    ensures var f := InitialForm(CreateDefaults);
      f.annee == JsStr("2024-2025") && f.classe == JsNum(1) && f.mention == JsStr("INFO")
      && f.activiteIds == [] && f.sportType == JsNull && f.nom == JsStr("")
  {
  }

  /** An activity as the server returns it. */
  datatype Activity = Activity(id: int, nom: string)

  /** A user as `/api/users/<id>/` returns it. */
  datatype StoredUser = StoredUser(
    id: int,
    nom: Option<string>,
    username: Option<string>,
    matricule: Option<string>,
    annee: Option<string>,
    classe: Option<int>,
    mention: Option<string>,
    activites: Option<seq<Activity>>,
    sportType: Option<string>)

  /** `activites.map(a => a.id)`. */
  function ActivityIds(acts: seq<Activity>): (r: seq<int>)
    ensures |r| == |acts| && forall i :: 0 <= i < |acts| ==> r[i] == acts[i].id
  {
    if acts == [] then [] else [acts[0].id] + ActivityIds(acts[1..])
  }

  /** The edit page's `user` state after its load: the form's user data and
      the activities as loaded. */
  datatype EditUser = EditUser(id: int, data: UserData, activites: seq<Activity>)

  function EditLoad(s: StoredUser): (r: EditUser)
    ensures r.id == s.id
    ensures r.data.activiteIds == Some(if s.activites.Some? then ActivityIds(s.activites.value) else [])
    ensures r.activites == (if s.activites.Some? then s.activites.value else [])
    ensures r.data.classe == Some(if s.classe.Some? && s.classe.value != 0 then s.classe.value else 1)
  {
    EditUser(s.id,
      UserData(Some(TextOr(s.nom, "")), Some(TextOr(s.username, "")), Some(TextOr(s.matricule, "")),
               Some(TextOr(s.annee, DefaultAnnee)),
               Some(if s.classe.Some? && s.classe.value != 0 then s.classe.value else 1),
               Some(TextOr(s.mention, DefaultMention)),
               Some(if s.activites.Some? then ActivityIds(s.activites.value) else []),
               if s.sportType.Some? && s.sportType.value != "" then Some(s.sportType.value) else None),
      if s.activites.Some? then s.activites.value else [])
  }

  /** The edit form starts from the stored user: the stored activities' ids,
      and class 1, mention INFO and year 2025-2026 where they are missing. */
  lemma EditFormStartsFromStored(s: StoredUser)
    ensures var f := InitialForm(EditLoad(s).data);
      && f.activiteIds == (if s.activites.Some? then ActivityIds(s.activites.value) else [])
      && (s.classe.None? ==> f.classe == JsNum(1))
      && (s.classe.Some? && s.classe.value != 0 ==> f.classe == JsNum(s.classe.value))
      && (s.mention.None? ==> f.mention == JsStr(DefaultMention))
      && (s.annee.None? ==> f.annee == JsStr(DefaultAnnee))
      && (s.sportType.Some? && s.sportType.value != "" ==> f.sportType == JsStr(s.sportType.value))
      && !HasModifications(f, f)
  {
  }

  /** What a submit does: the request it sends, or the message of the error
      it throws before sending anything. */
  datatype SubmitResult = Sent(payload: Payload) | Thrown(message: string)

  const EditFailed := "Erreur lors de la modification de l’utilisateur."
  const EditForbidden := "Vous n’êtes pas autorisé à modifier cet utilisateur."

  /** The edit page's `handleFormSubmit` as written. It reads the sport type's
      condition from `userData.activites`, the loaded activities, which the
      form's data does not carry (`None`): reading `.some` of undefined
      throws, and the catch shows the generic error. */
  function EditSubmitAsWritten(f: UserFormData, activites: Option<seq<Activity>>): (r: SubmitResult)
    ensures activites.None? ==> r == Thrown(EditFailed)
    ensures activites.Some? ==> r.Sent? && r.payload.activiteIds == f.activiteIds
  {
    match activites
    case None => Thrown(EditFailed)
    case Some(acts) =>
      var sport := exists i :: 0 <= i < |acts| && acts[i].nom == "SPORT";
      Sent(EditPayload(f).(sportType := if sport then f.sportType else JsNull))
  }

  /** The form hands the page its own data, which has no activities: as
      written, no edit is ever sent. */
  lemma EditNeverSendsAsWritten(f: UserFormData)
    ensures !EditSubmitAsWritten(f, None).Sent?
  {
  }

  /** The edit payload as evidently intended: the sport type kept only while
      SPORT is selected, as the creation page does; the password and the
      fingerprint sent only when filled in. */
  function EditPayload(f: UserFormData): (p: Payload)
    ensures p.nom == f.nom && p.username == f.username && p.matricule == f.matricule
    ensures p.annee == f.annee && p.mention == f.mention && p.activiteIds == f.activiteIds
    ensures p.classe == JsParseInt(f.classe)
    ensures SportId in f.activiteIds ==> p.sportType == f.sportType
    ensures SportId !in f.activiteIds ==> p.sportType == JsNull
    ensures p.password.Some? <==> Truthy(f.password)
    ensures p.password.Some? ==> p.password.value == f.password
    ensures p.fingerprint.Some? <==> Truthy(f.fingerprint)
    ensures p.fingerprint.Some? ==> p.fingerprint.value == f.fingerprint
  {
    Payload(f.nom, f.username, f.matricule, f.annee, JsParseInt(f.classe), f.mention, f.activiteIds,
            if SportId in f.activiteIds then f.sportType else JsNull,
            if Truthy(f.password) then Some(f.password) else None,
            if Truthy(f.fingerprint) then Some(f.fingerprint) else None)
  }

  /** Where the written submit could send (the activities given), it sends
      the intended payload whenever the activities it reads agree with the
      selection on SPORT. */
  lemma EditSubmitAgreesWithIntended(f: UserFormData, acts: seq<Activity>)
    requires (exists i :: 0 <= i < |acts| && acts[i].nom == "SPORT") <==> SportId in f.activiteIds
    ensures EditSubmitAsWritten(f, Some(acts)) == Sent(EditPayload(f))
  {
  }

  /** Edit and creation send the same user fields; they differ only in the
      password (edit only) and the fingerprint's default (creation only). */
  lemma EditAndCreateAgree(f: UserFormData)
    ensures EditPayload(f).(password := None, fingerprint := None) == CreatePayload(f).(fingerprint := None)
    ensures Truthy(f.fingerprint) ==> EditPayload(f).fingerprint == CreatePayload(f).fingerprint
  {
  }
}
