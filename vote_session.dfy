// The vote page's casting flow: select a candidate, submit (which opens the
// confirmation dialog and starts a fingerprint check), retry the check,
// confirm (which posts the vote). The fingerprint service and the vote
// endpoint are outcomes passed in; the handlers run one after another.
//
// `Session` is the page's state as a value and each handler a function on
// it; the `VotePage` class keeps the same state in fields and its methods
// are proved to move it as those functions say.

module VoteSession {
  import opened Common

  /** What the fingerprint endpoint answered: a message, or an error whose
      body may carry an `error` text. */
  datatype VerifyOutcome = Responded(message: string) | Failed(serverError: Option<string>)

  /** What the vote endpoint answered. */
  datatype PostOutcome = Accepted | Rejected(serverError: Option<string>)

  const VerifiedMessage := "Fingerprint verified"
  const InvalidFingerprint := "Empreinte digitale non valide."
  const VerifyFailed := "Échec de la vérification de l’empreinte."
  const SelectFirst := "Veuillez sélectionner un candidat."
  const VerifyFirst := "Veuillez vérifier votre empreinte digitale."
  const VoteRecorded := "Vote enregistré avec succès"
  const VoteFailed := "Erreur lors de l’enregistrement du vote."

  /** `selectedCandidate` ('' when none), `show`, `isFingerprintValid`,
      `fingerprintError`, `isVerifying`, `isSubmitting`, the notification,
      and the votes posted so far (the `candidate` field of each request). */
  datatype Session = Session(
    selected: string,
    show: bool,
    valid: bool,
    fingerprintError: string,
    verifying: bool,
    submitting: bool,
    notification: Option<string>,
    posted: seq<string>)

  const Initial := Session("", false, false, "", false, false, None, [])

  /** A click on a candidate's card selects `candidate.id.toString()`. */
  function Select(s: Session, candidateId: int): (t: Session)
    ensures t.selected == JsString(candidateId) && t.selected != ""
    ensures t.(selected := s.selected) == s
  {
    s.(selected := JsString(candidateId))
  }

  /** Enter on a focused card, as written: the route's election id is
      selected, not the card's candidate id. */
  function EnterSelectionAsWritten(routeId: string, candidateId: int): string {
    routeId
  }

  /** Enter on a focused card, as intended: the same selection as a click. */
  function EnterSelection(routeId: string, candidateId: int): (r: string)
    ensures r == Select(Initial, candidateId).selected
  {
    JsString(candidateId)
  }

  /** `verifyFingerprint`: valid exactly on the message 'Fingerprint
      verified'; any other answer or error leaves it invalid with an error
      text; the verifying flag is down afterwards. */
  function Verify(s: Session, o: VerifyOutcome): (t: Session)
    ensures t.valid <==> o == Responded(VerifiedMessage)
    ensures t.valid ==> t.fingerprintError == ""
    ensures o.Responded? && !t.valid ==> t.fingerprintError == InvalidFingerprint
    ensures o.Failed? ==> t.fingerprintError == TextOr(o.serverError, VerifyFailed) && t.fingerprintError != ""
    ensures !t.verifying
    ensures t.(valid := s.valid, fingerprintError := s.fingerprintError, verifying := s.verifying) == s
  {
    match o
    case Responded(m) =>
      if m == VerifiedMessage then s.(valid := true, fingerprintError := "", verifying := false)
      else s.(valid := false, fingerprintError := InvalidFingerprint, verifying := false)
    case Failed(e) =>
      s.(valid := false, fingerprintError := TextOr(e, VerifyFailed), verifying := false)
  }

  /** `handleVoteSubmit`: without a selection only a notification; otherwise
      open the dialog, reset the verdict and verify. */
  function Submit(s: Session, o: VerifyOutcome): (t: Session)
    ensures s.selected == "" ==> t == s.(notification := Some(SelectFirst))
    ensures s.selected != "" ==> t.show && !t.verifying && (t.valid <==> o == Responded(VerifiedMessage))
    ensures t.selected == s.selected && t.posted == s.posted
  {
    if s.selected == "" then s.(notification := Some(SelectFirst))
    else Verify(s.(show := true, valid := false, fingerprintError := ""), o)
  }

  /** `handleConfirmVote`: refuse without a valid fingerprint; otherwise post
      the selection; on success close the dialog. The verdict is kept either
      way and the submitting flag is down afterwards. */
  function Confirm(s: Session, o: PostOutcome): (t: Session)
    ensures !s.valid ==> t == s.(notification := Some(VerifyFirst))
    ensures s.valid ==> t.posted == s.posted + [s.selected] && t.valid && !t.submitting
    ensures s.valid && o == Accepted ==> !t.show && t.notification == Some(VoteRecorded)
    ensures s.valid && o.Rejected? ==> t.show == s.show && t.notification == Some(TextOr(o.serverError, VoteFailed))
  {
    if !s.valid then s.(notification := Some(VerifyFirst))
    else
      var sent := s.(submitting := true, posted := s.posted + [s.selected]);
      match o
      case Accepted => sent.(show := false, notification := Some(VoteRecorded), submitting := false)
      case Rejected(e) => sent.(notification := Some(TextOr(e, VoteFailed)), submitting := false)
  }

  /** What the voter can do on the page. The retry and confirm buttons live
      in the dialog, so those clicks only happen while it is shown. */
  datatype Event =
    | Click(candidateId: int)
    | Enter(routeId: string, candidateId: int)
    | SubmitVote(v: VerifyOutcome)
    | RetryVerification(v: VerifyOutcome)
    | ConfirmVote(p: PostOutcome)
    | CloseDialog

  function Step(s: Session, e: Event): Session {
    match e
    case Click(c) => Select(s, c)
    case Enter(r, c) => s.(selected := EnterSelectionAsWritten(r, c))
    case SubmitVote(v) => Submit(s, v)
    case RetryVerification(v) => if s.show then Verify(s, v) else s
    case ConfirmVote(p) => if s.show then Confirm(s, p) else s
    case CloseDialog => s.(show := false)
  }

  function Run(s: Session, es: seq<Event>): Session
    decreases |es|
  {
    if es == [] then s else Run(Step(s, es[0]), es[1..])
  }

  /** The verification events that answered 'Fingerprint verified'. */
  predicate VerifiedAt(es: seq<Event>, i: int)
    requires 0 <= i < |es|
  {
    || es[i] == SubmitVote(Responded(VerifiedMessage))
    || es[i] == RetryVerification(Responded(VerifiedMessage))
  }

  /** Only a successful fingerprint check turns the verdict on. */
  lemma StepNeedsVerification(s: Session, e: Event)
    requires !s.valid
    requires e != SubmitVote(Responded(VerifiedMessage)) && e != RetryVerification(Responded(VerifiedMessage))
    ensures !Step(s, e).valid && Step(s, e).posted == s.posted
  {
  }

  /** No vote is ever posted in a session in which the fingerprint service
      never answered 'Fingerprint verified'. */
  lemma {:induction false} NoVoteWithoutVerification(s: Session, es: seq<Event>)
    requires !s.valid
    requires forall i :: 0 <= i < |es| ==> !VerifiedAt(es, i)
    ensures Run(s, es).posted == s.posted
    decreases |es|
  {
    if es != [] {
      assert !VerifiedAt(es, 0);
      StepNeedsVerification(s, es[0]);
      forall i | 0 <= i < |es[1..]| ensures !VerifiedAt(es[1..], i) {
        assert !VerifiedAt(es, i + 1);
      }
      NoVoteWithoutVerification(Step(s, es[0]), es[1..]);
    }
  }

  /** `v` is the text of one of the displayed candidates' ids. */
  ghost predicate NamesCandidate(v: string, ids: seq<int>) {
    exists k :: 0 <= k < |ids| && v == JsString(ids[k])
  }

  /** The selection is empty, a displayed candidate, or one of the `others`
      texts the Enter key can select, and so is every vote posted; the
      dialog and a verdict are only there with a selection. */
  ghost predicate Consistent(s: Session, ids: seq<int>, others: set<string>) {
    && "" !in others
    && (s.selected == "" || NamesCandidate(s.selected, ids) || s.selected in others)
    && (s.valid || s.show ==> s.selected != "")
    && (forall j :: 0 <= j < |s.posted| ==> NamesCandidate(s.posted[j], ids) || s.posted[j] in others)
  }

  /** The voter clicks only displayed cards, and presses Enter only on a
      page whose route id is among `others`; with `others` empty there is
      no Enter at all. */
  predicate OnDisplayed(e: Event, ids: seq<int>, others: set<string>) {
    (e.Click? ==> e.candidateId in ids) && (e.Enter? ==> e.routeId in others)
  }

  lemma StepConsistent(s: Session, e: Event, ids: seq<int>, others: set<string>)
    requires Consistent(s, ids, others) && OnDisplayed(e, ids, others)
    ensures Consistent(Step(s, e), ids, others)
  {
    match e
    case Click(c) =>
      var k :| 0 <= k < |ids| && ids[k] == c;
      assert Step(s, e).selected == JsString(ids[k]);
    case Enter(r, c) =>
      assert Step(s, e).selected == r;
    case ConfirmVote(p) =>
      var t := Step(s, e);
      if s.show && s.valid {
        forall j | 0 <= j < |t.posted|
          ensures NamesCandidate(t.posted[j], ids) || t.posted[j] in others
        {
          if j < |s.posted| {
            assert t.posted[j] == s.posted[j];
          } else {
            assert t.posted[j] == s.selected;
          }
        }
      }
    case SubmitVote(v) =>
    case RetryVerification(v) =>
    case CloseDialog =>
  }

  /** Every vote a session posts names a displayed candidate or one of the
      route ids Enter was pressed under. */
  lemma {:induction false} RunConsistent(s: Session, es: seq<Event>, ids: seq<int>, others: set<string>)
    requires Consistent(s, ids, others)
    requires forall i :: 0 <= i < |es| ==> OnDisplayed(es[i], ids, others)
    ensures Consistent(Run(s, es), ids, others)
    decreases |es|
  {
    if es != [] {
      StepConsistent(s, es[0], ids, others);
      NoSkip(es, ids, others);
      RunConsistent(Step(s, es[0]), es[1..], ids, others);
    }
  }

  lemma NoSkip(es: seq<Event>, ids: seq<int>, others: set<string>)
    requires es != []
    requires forall i :: 0 <= i < |es| ==> OnDisplayed(es[i], ids, others)
    ensures forall i :: 0 <= i < |es[1..]| ==> OnDisplayed(es[1..][i], ids, others)
  {
    forall i | 0 <= i < |es[1..]| ensures OnDisplayed(es[1..][i], ids, others) {
      assert es[1..][i] == es[i + 1];
    }
  }

  /** On a fresh page where the voter only clicks displayed cards, every
      vote posted names a displayed candidate. */
  lemma PostedVotesAreCandidates(es: seq<Event>, ids: seq<int>, j: int)
    requires forall i :: 0 <= i < |es| ==> OnDisplayed(es[i], ids, {})
    requires 0 <= j < |Run(Initial, es).posted|
    ensures NamesCandidate(Run(Initial, es).posted[j], ids)
  {
    RunConsistent(Initial, es, ids, {});
  }

  /** On a fresh page of election `routeId` where Enter may be pressed, every
      vote posted names a displayed candidate or is the election's id. */
  lemma PostedVotesWithEnter(es: seq<Event>, ids: seq<int>, routeId: string, j: int)
    requires routeId != ""
    requires forall i :: 0 <= i < |es| ==> OnDisplayed(es[i], ids, {routeId})
    requires 0 <= j < |Run(Initial, es).posted|
    ensures NamesCandidate(Run(Initial, es).posted[j], ids) || Run(Initial, es).posted[j] == routeId
  {
    RunConsistent(Initial, es, ids, {routeId});
  }

  /** With the Enter key as written, Enter on any card, a verified
      fingerprint and a confirmation post the route's election id. */
  lemma EnterPostsRouteId(routeId: string, c: int)
    requires routeId != ""
    ensures Run(Initial, [Enter(routeId, c), SubmitVote(Responded(VerifiedMessage)), ConfirmVote(Accepted)]).posted == [routeId]
  {
    var es := [Enter(routeId, c), SubmitVote(Responded(VerifiedMessage)), ConfirmVote(Accepted)];
    var s1 := Step(Initial, es[0]);
    assert s1.selected == routeId;
    var s2 := Step(s1, es[1]);
    assert s2.valid && s2.show;
    var s3 := Step(s2, es[2]);
    assert s3.posted == [routeId];
    assert Run(Initial, es) == Run(s1, es[1..]);
    assert es[1..][1..] == es[2..];
    assert Run(s1, es[1..]) == Run(s2, es[2..]);
    assert Run(s2, es[2..]) == Run(s3, es[3..]);
  }

  /** With the Enter key as written, election 7 showing candidate 3 posts a
      vote for "7", which is no displayed candidate. */
  lemma EnterAsWrittenVotesForRouteId()
    ensures var s := Initial.(selected := EnterSelectionAsWritten("7", 3));
            var t := Confirm(Submit(s, Responded(VerifiedMessage)), Accepted);
            t.posted == ["7"] && t.posted[0] != JsString(3)
  {
    assert JsString(3) == "3";
  }

  /** With the corrected Enter key, Enter on a displayed card keeps the
      session consistent without any route id: every vote names a candidate. */
  lemma CorrectedEnterKeepsConsistent(s: Session, routeId: string, c: int, ids: seq<int>)
    requires Consistent(s, ids, {}) && c in ids
    ensures Consistent(s.(selected := EnterSelection(routeId, c)), ids, {})
  {
    var k :| 0 <= k < |ids| && ids[k] == c;
    assert EnterSelection(routeId, c) == JsString(ids[k]);
  }

  /** A refused vote keeps the verdict, so confirming again needs no new scan;
      an empty selection never reaches the fingerprint service. */
  lemma RetryAfterRejectedPost(s: Session, e: Option<string>)
    requires s.valid
    ensures var t := Confirm(s, Rejected(e));
            t.valid && !t.submitting && Confirm(t, Accepted).posted == s.posted + [s.selected, s.selected]
  {
  }

  /** Buttons: the page's vote button, the dialog's cancel, retry and
      confirm buttons. */
  predicate VoteEnabled(s: Session) { s.selected != "" && !s.submitting }
  predicate CancelEnabled(s: Session) { !s.verifying && !s.submitting }
  predicate RetryShown(s: Session) { !s.valid }
  predicate RetryEnabled(s: Session) { !s.verifying && !s.submitting }
  predicate ConfirmEnabled(s: Session) { s.valid && !s.verifying && !s.submitting }

  /** Between handlers both busy flags are down, so confirm is enabled
      exactly when the fingerprint is verified, and then retry is hidden. */
  lemma {:induction false} ButtonsAtRest(s: Session, es: seq<Event>)
    requires !s.verifying && !s.submitting
    ensures var t := Run(s, es);
            (ConfirmEnabled(t) <==> t.valid) && (ConfirmEnabled(t) ==> !RetryShown(t)) && CancelEnabled(t)
    decreases |es|
  {
    if es != [] {
      ButtonsAtRest(Step(s, es[0]), es[1..]);
    }
  }

  /** The page itself: the candidate ids it shows and the session fields. */
  class VotePage {
    const candidateIds: seq<int>
    const routeId: string
    var selectedCandidate: string
    var show: bool
    var isFingerprintValid: bool
    var fingerprintError: string
    var isVerifying: bool
    var isSubmitting: bool
    var notification: Option<string>
    var posted: seq<string>

    function State(): Session
      reads this
    {
      Session(selectedCandidate, show, isFingerprintValid, fingerprintError, isVerifying, isSubmitting, notification, posted)
    }

    constructor (ids: seq<int>, route: string)
      ensures candidateIds == ids && routeId == route && State() == Initial
    {
      candidateIds := ids;
      routeId := route;
      selectedCandidate := "";
      show := false;
      isFingerprintValid := false;
      fingerprintError := "";
      isVerifying := false;
      isSubmitting := false;
      notification := None;
      posted := [];
    }

    method ClickCandidate(c: int)
      modifies this
      ensures State() == Step(old(State()), Click(c))
    {
      selectedCandidate := JsString(c);
    }

    method PressEnter(c: int)
      modifies this
      ensures State() == Step(old(State()), Enter(routeId, c))
    {
      selectedCandidate := EnterSelectionAsWritten(routeId, c);
    }

    method VerifyFingerprint(o: VerifyOutcome)
      modifies this
      ensures State() == Verify(old(State()), o)
    {
      isVerifying := true;
      match o {
        case Responded(m) =>
          if m == VerifiedMessage {
            isFingerprintValid := true;
            fingerprintError := "";
          } else {
            fingerprintError := InvalidFingerprint;
            isFingerprintValid := false;
          }
        case Failed(e) =>
          fingerprintError := TextOr(e, VerifyFailed);
          isFingerprintValid := false;
      }
      isVerifying := false;
    }

    method HandleVoteSubmit(o: VerifyOutcome)
      modifies this
      ensures State() == Step(old(State()), SubmitVote(o))
    {
      if selectedCandidate == "" {
        notification := Some(SelectFirst);
        return;
      }
      show := true;
      isFingerprintValid := false;
      fingerprintError := "";
      VerifyFingerprint(o);
    }

    method HandleRetryVerification(o: VerifyOutcome)
      modifies this
      ensures State() == Verify(old(State()), o)
    {
      VerifyFingerprint(o);
    }

    method HandleConfirmVote(p: PostOutcome)
      modifies this
      ensures State() == Confirm(old(State()), p)
      ensures |posted| > |old(posted)| ==> old(isFingerprintValid)
    {
      if !isFingerprintValid {
        notification := Some(VerifyFirst);
        return;
      }
      isSubmitting := true;
      posted := posted + [selectedCandidate];
      match p {
        case Accepted =>
          show := false;
          notification := Some(VoteRecorded);
        case Rejected(e) =>
          notification := Some(TextOr(e, VoteFailed));
      }
      isSubmitting := false;
    }

    method CloseDialog()
      modifies this
      ensures State() == Step(old(State()), Event.CloseDialog)
    {
      show := false;
    }
  }
}
