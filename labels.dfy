// The code-to-label tables that every page repeats: classes 1..5 shown as
// L1..M2, mention, activity and sport codes shown by name, each with the
// page's own fallback for an unknown code, and criteria lists rendered as
// labels joined by ", ".

module Labels {
  import opened Common

  /** `{1: 'L1', ..., 5: 'M2'}[key] || fallback`; object keys are strings, so a
      class given as the number 3 or the string "3" reads the same entry. */
  function ClassLabel(key: string, fallback: string): (r: string)
    ensures key == "1" ==> r == "L1"
    ensures key == "2" ==> r == "L2"
    ensures key == "3" ==> r == "L3"
    ensures key == "4" ==> r == "M1"
    ensures key == "5" ==> r == "M2"
    ensures key !in {"1", "2", "3", "4", "5"} ==> r == fallback
  {
    if key == "1" then "L1"
    else if key == "2" then "L2"
    else if key == "3" then "L3"
    else if key == "4" then "M1"
    else if key == "5" then "M2"
    else fallback
  }

  /** The label of a class value as the pages look it up (`classes[classe]`). */
  function ClassLabelOf(classe: JsVal, fallback: string): string {
    ClassLabel(JsValToString(classe), fallback)
  }

  /** Reading a label back to its class number: the inverse table. */
  function ClassOfLabel(text: string): Option<int> {
    if text == "L1" then Some(1)
    else if text == "L2" then Some(2)
    else if text == "L3" then Some(3)
    else if text == "M1" then Some(4)
    else if text == "M2" then Some(5)
    else None
  }

  /** Classes 1..5 get five distinct labels that read back to the class; every
      other integer gets the fallback. */
  lemma ClassLabelRoundTrip(n: int, fallback: string)
    requires ClassOfLabel(fallback) == None
    ensures 1 <= n <= 5 ==> ClassOfLabel(ClassLabelOf(JsNum(n), fallback)) == Some(n)
    ensures !(1 <= n <= 5) ==> ClassLabelOf(JsNum(n), fallback) == fallback
  {
    if !(1 <= n <= 5) {
      ClassKeyOutside(n);
    }
  }

  lemma ClassKeyOutside(n: int)
    requires !(1 <= n <= 5)
    ensures JsString(n) !in {"1", "2", "3", "4", "5"}
  {
    JsNumberOfJsString(n);
  }

  /** Mention codes and their full names (`getMentionLabel` on most pages). */
  function MentionLabel(code: string, fallback: string): (r: string)
    ensures code !in {"INFO", "SA", "ECO", "LEA", "ST", "DROIT"} ==> r == fallback
  {
    if code == "INFO" then "Informatique"
    else if code == "SA" then "Sciences Agronomiques"
    else if code == "ECO" then "Économie et Commerce"
    else if code == "LEA" then "Langues Étrangères Appliquées"
    else if code == "ST" then "Sciences de la Terre"
    else if code == "DROIT" then "Droit"
    else fallback
  }

  function MentionOfLabel(text: string): Option<string> {
    if text == "Informatique" then Some("INFO")
    else if text == "Sciences Agronomiques" then Some("SA")
    else if text == "Économie et Commerce" then Some("ECO")
    else if text == "Langues Étrangères Appliquées" then Some("LEA")
    else if text == "Sciences de la Terre" then Some("ST")
    else if text == "Droit" then Some("DROIT")
    else None
  }

  /** Each of the six known mentions reads back from its label. */
  lemma MentionLabelRoundTrip(code: string, fallback: string)
    requires MentionOfLabel(fallback) == None
    ensures code in {"INFO", "SA", "ECO", "LEA", "ST", "DROIT"} ==> MentionOfLabel(MentionLabel(code, fallback)) == Some(code)
    ensures code !in {"INFO", "SA", "ECO", "LEA", "ST", "DROIT"} ==> MentionOfLabel(MentionLabel(code, fallback)) == None
  {
  }

  /** The user-management table shows the mention code itself, and only for
      the six codes it lists. */
  function MentionCodeLabel(code: string): (r: string)
    ensures code in {"INFO", "SA", "ECO", "LEA", "ST", "DROIT"} ==> r == code
    ensures code !in {"INFO", "SA", "ECO", "LEA", "ST", "DROIT"} ==> r == "Inconnu"
  {
    if code in {"INFO", "SA", "ECO", "LEA", "ST", "DROIT"} then code else "Inconnu"
  }

  function ActiviteLabel(code: string, fallback: string): (r: string)
    ensures code !in {"DANSE", "SPORT", "CHANT", "DESSIN", "SLAM"} ==> r == fallback
    ensures code in {"DANSE", "SPORT", "CHANT", "DESSIN", "SLAM"} ==> ',' !in r && r != "Aucune"
  {
    if code == "DANSE" then "Danse"
    else if code == "SPORT" then "Sport"
    else if code == "CHANT" then "Chant"
    else if code == "DESSIN" then "Dessin"
    else if code == "SLAM" then "Slam"
    else fallback
  }

  /** Sport codes; an unknown or missing sport type reads 'Aucun'. */
  function SportLabel(code: Option<string>): (r: string)
    ensures code.None? || code.value !in {"FOOT", "BASKET", "VOLLEY", "PET"} ==> r == "Aucun"
    ensures code.Some? && code.value in {"FOOT", "BASKET", "VOLLEY", "PET"} ==> r != "Aucun"
  {
    match code
    case None => "Aucun"
    case Some(c) =>
      if c == "FOOT" then "Football"
      else if c == "BASKET" then "Basketball"
      else if c == "VOLLEY" then "Volleyball"
      else if c == "PET" then "Pétanque"
      else "Aucun"
  }

  function MapLabels<T>(xs: seq<T>, labelOf: T -> string): (r: seq<string>)
    ensures |r| == |xs|
    ensures forall i :: 0 <= i < |xs| ==> r[i] == labelOf(xs[i])
  {
    if xs == [] then [] else [labelOf(xs[0])] + MapLabels(xs[1..], labelOf)
  }

  /** `xs?.map(labelOf).join(', ') || emptyText`: the joined labels, or the
      page's "none" text when the list is missing or the join is empty. */
  function ListLabel<T>(xs: Option<seq<T>>, labelOf: T -> string, emptyText: string): (r: string)
    ensures xs.None? || xs.value == [] ==> r == emptyText
  {
    match xs
    case None => emptyText
    case Some(l) =>
      var joined := Join(MapLabels(l, labelOf), ", ");
      if joined == "" then emptyText else joined
  }

  lemma JoinOfSeveralHasComma(xs: seq<string>)
    requires |xs| >= 2
    ensures ',' in Join(xs, ", ")
  {
    assert Join(xs, ", ")[|xs[0]|] == ',';
  }

  /** When no label is empty, contains a comma or equals the "none" text, the
      rendered list reads as the "none" text exactly when the list is empty. */
  lemma ListLabelEmptyIff<T>(xs: seq<T>, labelOf: T -> string, emptyText: string)
    requires ',' !in emptyText
    requires forall i :: 0 <= i < |xs| ==> labelOf(xs[i]) != "" && labelOf(xs[i]) != emptyText
    ensures ListLabel(Some(xs), labelOf, emptyText) == emptyText <==> xs == []
  {
    var ls := MapLabels(xs, labelOf);
    if |xs| >= 2 {
      JoinOfSeveralHasComma(ls);
      assert Join(ls, ", ") != emptyText;
    }
  }

  /** The sport criteria list is the exception: a list holding only an unknown
      sport code reads 'Aucun', the same text as an empty list. */
  lemma UnknownSportReadsAsNone(code: string)
    requires code !in {"FOOT", "BASKET", "VOLLEY", "PET"}
    ensures ListLabel(Some([Some(code)]), SportLabel, "Aucun") == ListLabel(Some([]), SportLabel, "Aucun")
  {
  }

  /** A user's activities (`activites.map(a => map[a.nom] || unknown).join(', ')`,
      'Aucune' when there are none). The profile pages pass 'Inconnu' for an
      unknown activity; the candidate-list page shows the raw name instead. */
  function ActivitesLabel(names: seq<string>, rawUnknown: bool): (r: string)
    ensures names == [] ==> r == "Aucune"
  {
    if names == [] then "Aucune"
    else Join(MapLabels(names, (n: string) => ActiviteLabel(n, if rawUnknown then n else "Inconnu")), ", ")
  }

  /** On the profile pages, only an empty activity list reads 'Aucune'. */
  lemma ActivitesLabelNoneIff(names: seq<string>)
    ensures ActivitesLabel(names, false) == "Aucune" <==> names == []
  {
    var f := (n: string) => ActiviteLabel(n, if false then n else "Inconnu");
    var ls := MapLabels(names, f);
    if |names| >= 2 {
      JoinOfSeveralHasComma(ls);
    }
  }

  /** The sport row of the profile pages: shown when one activity is SPORT. */
  predicate SportRowShown(names: seq<string>) {
    exists i :: 0 <= i < |names| && names[i] == "SPORT"
  }
}
