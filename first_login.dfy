// The first-login page: a new password typed twice, checked on submit
// before it is posted.

module FirstLogin {
  import opened Common

  const Mismatch := "Les mots de passe ne correspondent pas."
  const TooShort := "Le mot de passe doit contenir au moins 8 caractères."
  const Updated := "Mot de passe et empreinte digitale mis à jour avec succès"
  const GenericError := "Une erreur est survenue. Veuillez réessayer."
  const MinLength := 8

  /** The checks `handleSubmit` runs before posting, in their order: the
      error shown, or `None` when the password may be posted. */
  function PasswordCheck(newPassword: string, confirmPassword: string): (r: Option<string>)
    ensures r.None? <==> newPassword == confirmPassword && |newPassword| >= MinLength
    ensures newPassword != confirmPassword ==> r == Some(Mismatch)
    ensures newPassword == confirmPassword && |newPassword| < MinLength ==> r == Some(TooShort)
  {
    if newPassword != confirmPassword then Some(Mismatch)
    else if |newPassword| < MinLength then Some(TooShort)
    else None
  }

  /** A short password typed differently twice is reported as a mismatch:
      the length is not looked at until both entries agree. */
  lemma MismatchReportedFirst(newPassword: string, confirmPassword: string)
    requires newPassword != confirmPassword && |newPassword| < MinLength
    ensures PasswordCheck(newPassword, confirmPassword) == Some(Mismatch)
    ensures PasswordCheck(newPassword, newPassword) == Some(TooShort)
  {
  }

  /** How the post ended: accepted, or refused with the server's `error`
      text (`None` when it sent none). */
  datatype PostOutcome = Accepted | Refused(serverError: Option<string>)

  /** The page's state; `posted` records every password sent and
      `redirectScheduled` the timer that leads to the user dashboard. */
  class FirstLoginPage {
    var newPassword: string
    var confirmPassword: string
    var error: string
    var success: string
    var isLoading: bool
    var posted: seq<string>
    var redirectScheduled: bool

    /** Every password posted passed the checks, and no request is in flight
      between two events (the model runs `handleSubmit` to its end). */
    ghost predicate Valid()
      reads this
    {
      && !isLoading
      && forall i :: 0 <= i < |posted| ==> |posted[i]| >= MinLength
    }

    /** The browser's constraint validation: both `required` entries are
      filled in. Until this holds the submit event never reaches
      `handleSubmit`. */
    predicate BrowserAccepts()
      reads this
    {
      newPassword != "" && confirmPassword != ""
    }

    constructor ()
      ensures Valid()
      ensures newPassword == "" && confirmPassword == "" && error == "" && success == ""
      ensures !isLoading && posted == [] && !redirectScheduled
    {
      newPassword := "";
      confirmPassword := "";
      error := "";
      success := "";
      isLoading := false;
      posted := [];
      redirectScheduled := false;
    }

    method SetNewPassword(value: string)
      modifies this`newPassword
      ensures newPassword == value
    {
      newPassword := value;
    }

    method SetConfirmPassword(value: string)
      modifies this`confirmPassword
      ensures confirmPassword == value
    {
      confirmPassword := value;
    }

    /** `handleSubmit`, once the browser accepts the entries: clear the
      messages, run the checks in order, and post only when both pass; the
      post's `outcome` decides the message. */
    method HandleSubmit(outcome: PostOutcome)
      requires Valid()
      modifies this`error, this`success, this`isLoading, this`posted, this`redirectScheduled
      ensures Valid()
      ensures !BrowserAccepts() ==>
        && error == old(error) && success == old(success)
        && posted == old(posted) && redirectScheduled == old(redirectScheduled)
      ensures BrowserAccepts() ==> var check := PasswordCheck(newPassword, confirmPassword);
        && (check.Some? ==> (error == check.value && success == "" && posted == old(posted)
                             && redirectScheduled == old(redirectScheduled)))
        && (check.None? ==> posted == old(posted) + [newPassword])
      ensures BrowserAccepts() && PasswordCheck(newPassword, confirmPassword).None? && outcome.Accepted? ==>
        success == Updated && error == "" && redirectScheduled
      ensures BrowserAccepts() && PasswordCheck(newPassword, confirmPassword).None? && outcome.Refused? ==>
        error == TextOr(outcome.serverError, GenericError) && success == "" && redirectScheduled == old(redirectScheduled)
    {
      if !BrowserAccepts() {
        return;
      }
      error := "";
      success := "";
      isLoading := true;

      if newPassword != confirmPassword {
        error := Mismatch;
        isLoading := false;
        return;
      }

      if |newPassword| < MinLength {
        error := TooShort;
        isLoading := false;
        return;
      }

      posted := posted + [newPassword];
      match outcome {
        case Accepted =>
          success := Updated;
          isLoading := false;
          redirectScheduled := true;
        case Refused(serverError) =>
          error := TextOr(serverError, GenericError);
          isLoading := false;
      }
    }
  }
}
