/** The email sign-in / sign-up / password-reset form (components/EmailAuth.js): field updates,
    the ordered first-failure validator of each mode, and the submit dispatch. The auth provider
    calls are not modelled; their answers are inputs. */
module EmailForm {
  import opened Wrappers
  import opened Text

  datatype Mode = SignIn | SignUp | Reset

  datatype FormData = FormData(email: String, password: String, confirmPassword: String, fullName: String)

  /** The `name` attributes of the form's inputs. */
  datatype Field = Email | Password | ConfirmPassword | FullName

  function Get(f: FormData, k: Field): String {
    match k
    case Email => f.email
    case Password => f.password
    case ConfirmPassword => f.confirmPassword
    case FullName => f.fullName
  }

  /** `{...formData, [name]: value}`. */
  function Set(f: FormData, k: Field, v: String): (g: FormData)
    ensures Get(g, k) == v
    ensures forall other :: other != k ==> Get(g, other) == Get(f, other)
  {
    match k
    case Email => f.(email := v)
    case Password => f.(password := v)
    case ConfirmPassword => f.(confirmPassword := v)
    case FullName => f.(fullName := v)
  }

  datatype FormState = FormState(mode: Mode, form: FormData, loading: bool, error: String, message: String)

  /** handleInputChange: the named field takes the typed value, every other field is kept, and
      both the error and the success message are cleared. */
  function InputChange(st: FormState, k: Field, v: String): (r: FormState)
    ensures Get(r.form, k) == v
    ensures forall other :: other != k ==> Get(r.form, other) == Get(st.form, other)
    ensures r.error == [] && r.message == []
    ensures r.mode == st.mode && r.loading == st.loading
  {
    st.(form := Set(st.form, k, v), error := "", message := "")
  }

  const MinPasswordLength: nat := 6
  const EmailText: String := "Please enter a valid email address"
  const PasswordText: String := "Password must be at least 6 characters long"
  const NameText: String := "Please enter your full name"
  const MismatchText: String := "Passwords do not match"

  datatype Check = Valid | Invalid(message: String)

  /** validateForm, in the source's order: the email (non-empty, with an '@') in every mode; in
      reset mode nothing else; then a password of at least six characters; in sign-up mode also a
      non-blank full name and then a matching confirmation. */
  function Validate(mode: Mode, f: FormData): (c: Check)
    ensures c == Valid <==> forall rule :: rule in Rules(mode) ==> Holds(rule, f)
    ensures c == FirstFailure(Rules(mode), f)
  {
    RulesAgree(mode, f);
    if f.email == [] || !Includes(f.email, "@") then Invalid(EmailText)
    else if mode == Reset then Valid
    else if f.password == [] || |f.password| < MinPasswordLength then Invalid(PasswordText)
    else if mode == SignUp && IsBlank(f.fullName) then Invalid(NameText)
    else if mode == SignUp && f.password != f.confirmPassword then Invalid(MismatchText)
    else Valid
  }

  // The validator's rules, as an ordered table: an independent reading of validateForm.

  datatype Rule = EmailRule | PasswordRule | NameRule | MatchRule

  function Rules(mode: Mode): seq<Rule> {
    match mode
    case Reset => [EmailRule]
    case SignIn => [EmailRule, PasswordRule]
    case SignUp => [EmailRule, PasswordRule, NameRule, MatchRule]
  }

  predicate Holds(rule: Rule, f: FormData) {
    match rule
    case EmailRule => f.email != [] && Includes(f.email, "@")
    case PasswordRule => |f.password| >= MinPasswordLength
    case NameRule => !IsBlank(f.fullName)
    case MatchRule => f.password == f.confirmPassword
  }

  function MessageOf(rule: Rule): String {
    match rule
    case EmailRule => EmailText
    case PasswordRule => PasswordText
    case NameRule => NameText
    case MatchRule => MismatchText
  }

  /** The message of the first rule that fails, or `Valid` when all hold. */
  function FirstFailure(rules: seq<Rule>, f: FormData): (c: Check)
    ensures c == Valid <==> forall rule :: rule in rules ==> Holds(rule, f)
    ensures c.Invalid? ==> exists k :: 0 <= k < |rules| && !Holds(rules[k], f) && c.message == MessageOf(rules[k])
                             && forall j :: 0 <= j < k ==> Holds(rules[j], f)
    decreases |rules|
  {
    if |rules| == 0 then Valid
    else if !Holds(rules[0], f) then Invalid(MessageOf(rules[0]))
    else
      var c := FirstFailure(rules[1..], f);
      assert forall rule :: rule in rules ==> rule == rules[0] || rule in rules[1..];
      assert c.Invalid? ==> exists k :: 0 <= k < |rules| && !Holds(rules[k], f) && c.message == MessageOf(rules[k])
                             && forall j :: 0 <= j < k ==> Holds(rules[j], f) by {
        if c.Invalid? {
          var k :| 0 <= k < |rules[1..]| && !Holds(rules[1..][k], f) && c.message == MessageOf(rules[1..][k])
                   && forall j :: 0 <= j < k ==> Holds(rules[1..][j], f);
          assert rules[k + 1] == rules[1..][k];
          assert forall j :: 1 <= j < k + 1 ==> rules[j] == rules[1..][j - 1];
        }
      }
      c
  }

  /** The nested tests of validateForm compute the first failing rule of the mode's table. */
  lemma RulesAgree(mode: Mode, f: FormData)
    ensures FirstFailure(Rules(mode), f) ==
      if f.email == [] || !Includes(f.email, "@") then Invalid(EmailText)
      else if mode == Reset then Valid
      else if f.password == [] || |f.password| < MinPasswordLength then Invalid(PasswordText)
      else if mode == SignUp && IsBlank(f.fullName) then Invalid(NameText)
      else if mode == SignUp && f.password != f.confirmPassword then Invalid(MismatchText)
      else Valid
  {
    match mode
    case Reset =>
      FirstFailureCons(EmailRule, [], f);
    case SignIn =>
      FirstFailureCons(EmailRule, [PasswordRule], f);
      FirstFailureCons(PasswordRule, [], f);
    case SignUp =>
      FirstFailureCons(EmailRule, [PasswordRule, NameRule, MatchRule], f);
      FirstFailureCons(PasswordRule, [NameRule, MatchRule], f);
      FirstFailureCons(NameRule, [MatchRule], f);
      FirstFailureCons(MatchRule, [], f);
  }

  /** One step of the table: the head rule decides unless it holds. */
  lemma FirstFailureCons(rule: Rule, rest: seq<Rule>, f: FormData)
    ensures FirstFailure([rule] + rest, f) == if Holds(rule, f) then FirstFailure(rest, f) else Invalid(MessageOf(rule))
  {
    assert ([rule] + rest)[1..] == rest;
  }

  /** A bad email is reported first, whatever the mode and the other fields. */
  lemma EmailCheckedFirst(mode: Mode, f: FormData)
    requires f.email == [] || !Includes(f.email, "@")
    ensures Validate(mode, f) == Invalid(EmailText)
  {
  }

  /** What the form asks the auth provider for. The full name is sent untrimmed. */
  datatype AuthRequest =
    | SignUpRequest(email: String, password: String, fullName: String)
    | SignInRequest(email: String, password: String)
    | ResetRequest(email: String)

  function RequestFor(mode: Mode, f: FormData): AuthRequest {
    match mode
    case SignUp => SignUpRequest(f.email, f.password, f.fullName)
    case SignIn => SignInRequest(f.email, f.password)
    case Reset => ResetRequest(f.email)
  }

  datatype Begin = Begin(state: FormState, request: Option<AuthRequest>)

  /** handleSubmit up to the provider call: an invalid form shows the first failure's message and
      sends nothing; a valid one clears both texts, starts loading and sends the mode's request. */
  function BeginSubmit(st: FormState): (b: Begin)
    ensures Validate(st.mode, st.form).Invalid? ==>
              b.request.None? && b.state == st.(error := Validate(st.mode, st.form).message)
    ensures Validate(st.mode, st.form) == Valid ==>
              b.request == Some(RequestFor(st.mode, st.form))
              && b.state == st.(loading := true, error := "", message := "")
  {
    match Validate(st.mode, st.form)
    case Invalid(text) => Begin(st.(error := text), None)
    case Valid => Begin(st.(loading := true, error := "", message := ""), Some(RequestFor(st.mode, st.form)))
  }

  /** What the provider call produced: an answer with or without an error message, or an
      exception. */
  datatype AuthAnswer = Answered(error: Option<String>) | Raised

  const GenericErrorText: String := "An unexpected error occurred. Please try again."

  function SuccessText(mode: Mode): String {
    match mode
    case SignUp => "Check your email for a verification link!"
    case SignIn => "Sign in successful! Redirecting..."
    case Reset => "Password reset email sent! Check your inbox."
  }

  /** handleSubmit after the provider answers, for the mode the request was sent in: a returned
      error shows its message, a clean answer shows the mode's success text, an exception shows the
      generic text; loading ends in every case. */
  function FinishSubmit(st: FormState, mode: Mode, answer: AuthAnswer): (r: FormState)
    ensures !r.loading && r.form == st.form && r.mode == st.mode
    ensures answer.Answered? && answer.error.Some? ==> r.error == answer.error.value && r.message == st.message
    ensures answer == Answered(None) ==> r.message == SuccessText(mode) && r.error == st.error
    ensures answer.Raised? ==> r.error == GenericErrorText && r.message == st.message
  {
    match answer
    case Answered(Some(text)) => st.(error := text, loading := false)
    case Answered(None) => st.(message := SuccessText(mode), loading := false)
    case Raised => st.(error := GenericErrorText, loading := false)
  }

  /** A whole submit with nothing in between: exactly one request, the current mode's, exactly
      when the form is valid, and loading is off at the end. */
  lemma SubmitDispatch(st: FormState, answer: AuthAnswer)
    requires !st.loading
    ensures var b := BeginSubmit(st);
      && (b.request.Some? <==> forall rule :: rule in Rules(st.mode) ==> Holds(rule, st.form))
      && (b.request.Some? ==> b.request.value == RequestFor(st.mode, st.form))
      && !(if b.request.Some? then FinishSubmit(b.state, st.mode, answer) else b.state).loading
  {
  }
}
