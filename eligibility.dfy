// Voter eligibility: the four-criterion check that the vote page runs before
// showing the ballot, and the class-only check that the voter's dashboard,
// election list, result list, election details and result details repeat.
//
// Every criterion is a list read from `allowed_voter_criteria`; a criterion
// that is missing or is not an array is `None`, and both `None` and the empty
// list restrict nothing.

module Eligibility {
  import opened Common

  /** The fields of the user record the check reads. */
  datatype Voter = Voter(classe: int, mention: string, activites: seq<string>, sportType: Option<string>)

  /** `allowed_voter_criteria`. Class entries keep their JSON type, because
      the creation page stores numbers and the edit page stores strings. */
  datatype Criteria = Criteria(
    classe: Option<seq<JsVal>>,
    mention: Option<seq<string>>,
    activite: Option<seq<string>>,
    sportType: Option<seq<string>>)

  /** A missing criteria object reads like one whose four fields are missing. */
  const NoCriteria := Criteria(None, None, None, None)

  /** `Array.isArray(c) && c.length > 0`. */
  predicate Restricts<T>(c: Option<seq<T>>) {
    c.Some? && |c.value| > 0
  }

  /** `classeCriteria.includes(String(classe))`: strict equality against the
      class written as a decimal string. */
  predicate ClassAllowed(crit: Option<seq<JsVal>>, classe: int) {
    Restricts(crit) ==> JsStr(JsString(classe)) in crit.value
  }

  predicate MentionAllowed(crit: Option<seq<string>>, mention: string) {
    Restricts(crit) ==> mention in crit.value
  }

  /** Some activity of the voter is listed. */
  predicate ActiviteAllowed(crit: Option<seq<string>>, activites: seq<string>) {
    Restricts(crit) ==> exists i :: 0 <= i < |activites| && activites[i] in crit.value
  }

  predicate HasSport(activites: seq<string>) {
    exists i :: 0 <= i < |activites| && activites[i] == "SPORT"
  }

  /** The sport rule as the vote page writes it: a listed sport type binds
      only a voter who passes the activity check and practises SPORT. */
  predicate SportAllowed(c: Criteria, v: Voter) {
    Restricts(c.sportType) ==>
      (ActiviteAllowed(c.activite, v.activites) && HasSport(v.activites) ==>
         v.sportType.Some? && v.sportType.value in c.sportType.value)
  }

  predicate IsEligible(c: Criteria, v: Voter) {
    && ClassAllowed(c.classe, v.classe)
    && MentionAllowed(c.mention, v.mention)
    && ActiviteAllowed(c.activite, v.activites)
    && SportAllowed(c, v)
  }

  /** Why the vote page refuses to show the ballot. */
  datatype LoadError = NotAllowed | CannotVote | NoCandidates

  function LoadErrorMessage(e: LoadError): string {
    match e
    case NotAllowed => "Vous n’êtes pas autorisé à voter dans cette élection."
    case CannotVote => "Vous ne pouvez pas voter (déjà voté ou élection fermée)."
    case NoCandidates => "Aucun candidat n’est disponible pour cette élection."
  }

  /** The three checks of the vote page's load, in the order they throw. Only
      `can_vote === true` is truthy among the values the flag takes. */
  function LoadVotePage(c: Criteria, v: Voter, canVote: Flag, candidateCount: nat): (r: Option<LoadError>)
    ensures r == None <==> IsEligible(c, v) && canVote == FlagTrue && candidateCount > 0
    ensures r == Some(NotAllowed) <==> !IsEligible(c, v)
    ensures r == Some(CannotVote) <==> IsEligible(c, v) && canVote != FlagTrue
    ensures r == Some(NoCandidates) <==> IsEligible(c, v) && canVote == FlagTrue && candidateCount == 0
  {
    if !IsEligible(c, v) then Some(NotAllowed)
    else if canVote != FlagTrue then Some(CannotVote)
    else if candidateCount == 0 then Some(NoCandidates)
    else None
  }

  /** Whoever the vote page admits also passes the class-only filter of every
      other voter page. */
  lemma EligibleImpliesClassAllowed(c: Criteria, v: Voter)
    requires IsEligible(c, v)
    ensures ClassAllowed(c.classe, v.classe)
  {
  }

  /** With every criterion missing or empty, every voter is eligible. */
  lemma UnrestrictedAdmitsAll(c: Criteria, v: Voter)
    requires !Restricts(c.classe) && !Restricts(c.mention) && !Restricts(c.activite) && !Restricts(c.sportType)
    ensures IsEligible(c, v)
  {
  }

  /** A voter who does not practise SPORT passes the sport check whatever
      sport types are listed. */
  lemma NoSportPassesSport(c: Criteria, v: Voter)
    requires !HasSport(v.activites)
    ensures SportAllowed(c, v)
  {
  }

  /** A class list holding the class `n` as a string admits exactly the voters
      of class `n`. */
  lemma {:induction false} SingleClassAdmitsExactly(n: int, v: Voter)
    ensures ClassAllowed(Some([JsStr(JsString(n))]), v.classe) <==> v.classe == n
  {
    if ClassAllowed(Some([JsStr(JsString(n))]), v.classe) {
      JsStringInjective(v.classe, n);
    }
  }

  /** A non-empty class list made only of numbers, as the creation page stores
      it, admits no voter at all: a number never equals a string. */
  lemma NumericClassesExcludeEveryone(crit: seq<JsVal>, classe: int)
    requires |crit| > 0
    requires forall i :: 0 <= i < |crit| ==> crit[i].JsNum?
    ensures !ClassAllowed(Some(crit), classe)
  {
  }

  /** The class-only filter, applied to a whole election list. */
  function ClassFilter(crits: seq<Option<seq<JsVal>>>, classe: int): (r: seq<Option<seq<JsVal>>>)
    ensures |r| <= |crits|
    ensures forall i :: 0 <= i < |r| ==> ClassAllowed(r[i], classe)
    ensures forall i :: 0 <= i < |crits| && ClassAllowed(crits[i], classe) ==> crits[i] in r
  {
    Filter(crits, (k: Option<seq<JsVal>>) => ClassAllowed(k, classe))
  }

  /** The sport rule that binds only when the activity list names SPORT,
      and then binds every voter. */
  predicate SportListedRule(c: Criteria, v: Voter) {
    (Restricts(c.activite) && "SPORT" in c.activite.value && Restricts(c.sportType)) ==>
      (HasSport(v.activites) && v.sportType.Some? && v.sportType.value in c.sportType.value)
  }

  /** Where the two rules agree: both reject a SPORT voter whose sport is not
      listed when the activity list names SPORT. */
  lemma SportRulesAgreeWhenSportListed(c: Criteria, v: Voter)
    requires Restricts(c.activite) && "SPORT" in c.activite.value
    requires HasSport(v.activites)
    ensures SportAllowed(c, v) <==> SportListedRule(c, v)
  {
    var i :| 0 <= i < |v.activites| && v.activites[i] == "SPORT";
    assert v.activites[i] in c.activite.value;
  }

  /** Where they differ: with no activity list, the code still holds a SPORT
      voter to the listed sport types. */
  lemma SportRulesDiffer()
    ensures var c := Criteria(None, None, None, Some(["FOOT"]));
            var v := Voter(1, "INFO", ["SPORT"], Some("BASKET"));
            !SportAllowed(c, v) && SportListedRule(c, v)
  {
    var v := Voter(1, "INFO", ["SPORT"], Some("BASKET"));
    assert v.activites[0] == "SPORT";
  }
}
