/** The registration form of the client: the checks `handleSubmit` makes
    before it calls `register`, in their order, and the error it shows. */
module RegisterPage {
  import opened Common
  import opened Text
  import opened UserModel

  datatype RegisterForm = RegisterForm(name: string, email: string, password: string, confirmPassword: string)

  const MismatchError := "Passwords do not match"
  const LengthError := "Password must be at least 6 characters long"

  /** The client's minimum password length. */
  const ClientMinPasswordLength := 6

  /** The arguments of a `register` call. */
  datatype Registration = Registration(name: string, email: string, password: string)

  /** What a submit does: the error it leaves shown and the `register` call
      it makes, if any. `registerError` is the message `register` fails
      with, if it fails. */
  datatype Submit = Submit(error: string, call: Option<Registration>)

  /** `handleSubmit`: a mismatch is reported first, then a password shorter
      than six UTF-16 code units (`length`), and only then is `register`
      called. The shown error is cleared before the checks, so the error
      shown earlier is no input of the outcome. */
  function HandleSubmit(f: RegisterForm, registerError: Option<string>): (r: Submit)
    ensures r.call.Some? <==> f.password == f.confirmPassword && Utf16Length(f.password) >= ClientMinPasswordLength
    ensures r.call.Some? ==> r.call.value == Registration(f.name, f.email, f.password)
    ensures f.password != f.confirmPassword ==> r.error == MismatchError
    ensures f.password == f.confirmPassword && Utf16Length(f.password) < ClientMinPasswordLength ==> r.error == LengthError
    ensures r.call.Some? ==> r.error == if registerError.Some? then registerError.value else ""
  {
    if f.password != f.confirmPassword then Submit(MismatchError, None)
    else if Utf16Length(f.password) < ClientMinPasswordLength then Submit(LengthError, None)
    else Submit(if registerError.Some? then registerError.value else "", Some(Registration(f.name, f.email, f.password)))
  }

  /** A short password that also differs from its confirmation is reported
      as a mismatch: the mismatch check comes first. */
  lemma MismatchReportedFirst(f: RegisterForm, registerError: Option<string>)
    requires f.password != f.confirmPassword && Utf16Length(f.password) < ClientMinPasswordLength
    ensures HandleSubmit(f, registerError) == Submit(MismatchError, None)
  {
  }

  /** Length is counted in code units: three emoji make a password of
      six, which the page accepts. */
  lemma ThreeEmojiPasswordAccepted(name: string, email: string)
    ensures var pw := "\U{1F600}\U{1F600}\U{1F600}";
            |pw| == 3 && HandleSubmit(RegisterForm(name, email, pw, pw), None).call.Some?
  {
    var pw := "\U{1F600}\U{1F600}\U{1F600}";
    assert pw[1..][1..] == "\U{1F600}";
  }

  /** The client's length check is the schema's: every password the page
      passes to `register` meets the schema's minimum, and every matching
      password the schema accepts passes the page's check. */
  lemma LengthCheckMatchesSchema(f: RegisterForm, registerError: Option<string>)
    ensures ClientMinPasswordLength == MinPasswordLength
    ensures HandleSubmit(f, registerError).call.Some? ==> Utf16Length(f.password) >= MinPasswordLength
    ensures f.password == f.confirmPassword && Utf16Length(f.password) >= MinPasswordLength ==>
      HandleSubmit(f, registerError).call.Some?
  {
  }
}
