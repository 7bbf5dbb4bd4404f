/** The registration form: field validation, per-field error clearing on
    input, and the gate in front of the registration request. */
module RegisterForm {
  import opened Common

  datatype Form = Form(name: string, email: string, password: string, confirmPassword: string)

  const EmptyForm: Form := Form("", "", "", "")

  datatype Field = NameField | EmailField | PasswordField | ConfirmField

  /** The input's `name` attribute, which is also its key in the error map. */
  function Key(field: Field): string {
    match field
    case NameField => "name"
    case EmailField => "email"
    case PasswordField => "password"
    case ConfirmField => "confirmPassword"
  }

  const NameRequired: string := "Name is required"
  const EmailRequired: string := "Valid email is required"
  const PasswordTooShort: string := "Password must be at least 6 characters"
  const PasswordsDiffer: string := "Passwords do not match"
  const MinPasswordLength: nat := 6

  /** The characters JavaScript's `\s` matches. */
  predicate IsSpace(c: char) {
    c == ' ' || c == '\t' || c == '\n' || c == '\r' || c == '\U{000B}' || c == '\U{000C}'
    || c == '\U{00A0}' || c == '\U{1680}' || ('\U{2000}' <= c <= '\U{200A}')
    || c == '\U{2028}' || c == '\U{2029}' || c == '\U{202F}' || c == '\U{205F}'
    || c == '\U{3000}' || c == '\U{FEFF}'
  }

  /** `s[lo..hi]` holds no whitespace. */
  ghost predicate NoSpace(s: string, lo: int, hi: int)
    requires 0 <= lo <= hi <= |s|
  {
    forall k :: lo <= k < hi ==> !IsSpace(s[k])
  }

  /** The regular expression `\S+@\S+\.\S+` matches `s[a..e]` with the `@` at
      `p` and the `.` at `d`. */
  ghost predicate RegexMatchAt(s: string, a: int, p: int, d: int, e: int) {
    0 <= a < p && p + 1 < d && d + 1 < e <= |s|
    && s[p] == '@' && s[d] == '.'
    && NoSpace(s, a, p) && NoSpace(s, p + 1, d) && NoSpace(s, d + 1, e)
  }

  /** `/\S+@\S+\.\S+/.test(s)`: unanchored, so any substring may match. */
  ghost predicate MatchesEmailRegex(s: string) {
    exists a, p, d, e :: RegexMatchAt(s, a, p, d, e)
  }

  /** The same test seen from the `@` and the `.`: one visible character
      before the `@`, a whitespace-free run up to the `.`, one visible
      character after it. */
  predicate EmailShapeAt(s: string, p: int, d: int) {
    0 < p && p + 1 < d && d + 1 < |s|
    && s[p] == '@' && s[d] == '.'
    && !IsSpace(s[p - 1]) && !IsSpace(s[d + 1])
    && forall k :: p < k < d ==> !IsSpace(s[k])
  }

  predicate HasEmailShape(s: string) {
    exists p, d | 0 < p < d < |s| :: EmailShapeAt(s, p, d)
  }

  /** The two readings of the regular expression agree. */
  lemma EmailShapeIsRegex(s: string)
    ensures HasEmailShape(s) <==> MatchesEmailRegex(s)
  {
    if HasEmailShape(s) {
      var p, d :| 0 < p < d < |s| && EmailShapeAt(s, p, d);
      assert RegexMatchAt(s, p - 1, p, d, d + 2);
    }
    if MatchesEmailRegex(s) {
      var a, p, d, e :| RegexMatchAt(s, a, p, d, e);
      assert EmailShapeAt(s, p, d);
    }
  }

  /** The executable form of the form's `emailRegex.test(email)` call: a
      left-to-right scan that, for every `@` with a visible character before
      it, walks the whitespace-free run after it looking for a `.` followed
      by a visible character. `ValidateForm` decides the same question
      through `HasEmailShape`, which `EmailShapeIsRegex` ties to the regex. */
  method TestEmail(s: string) returns (b: bool)
    ensures b <==> MatchesEmailRegex(s)
  {
    EmailShapeIsRegex(s);
    var p := 1;
    while p < |s|
      invariant 1 <= p
      invariant forall q, d :: q < p ==> !EmailShapeAt(s, q, d)
    {
      if s[p] == '@' && !IsSpace(s[p - 1]) {
        var d := p + 1;
        while d < |s| && !IsSpace(s[d])
          invariant p + 1 <= d <= |s|
          invariant forall k :: p < k < d ==> !IsSpace(s[k])
          invariant forall d' :: d' < d ==> !EmailShapeAt(s, p, d')
        {
          if d > p + 1 && s[d] == '.' && d + 1 < |s| && !IsSpace(s[d + 1]) {
            assert EmailShapeAt(s, p, d);
            return true;
          }
          d := d + 1;
        }
        forall d' | d <= d'
          ensures !EmailShapeAt(s, p, d')
        {
          if d < d' && d' + 1 < |s| {
            assert IsSpace(s[d]);
          }
        }
      }
      p := p + 1;
    }
    return false;
  }

  /** `validateForm`'s error map: one entry per failed rule. */
  function ValidateForm(form: Form): (errors: map<string, string>)
    ensures "name" in errors <==> form.name == ""
    ensures "email" in errors <==> form.email == "" || !MatchesEmailRegex(form.email)
    ensures "password" in errors <==> |form.password| < MinPasswordLength
    ensures "confirmPassword" in errors <==> form.password != form.confirmPassword
    ensures errors.Keys <= {"name", "email", "password", "confirmPassword"}
    ensures "name" in errors ==> errors["name"] == NameRequired
    ensures "email" in errors ==> errors["email"] == EmailRequired
    ensures "password" in errors ==> errors["password"] == PasswordTooShort
    ensures "confirmPassword" in errors ==> errors["confirmPassword"] == PasswordsDiffer
  {
    EmailShapeIsRegex(form.email);
    var e0: map<string, string> := map[];
    var e1 := if form.name == "" then e0["name" := NameRequired] else e0;
    var e2 := if form.email == "" || !HasEmailShape(form.email) then e1["email" := EmailRequired] else e1;
    // `!password || password.length < 6`: the empty password is shorter than 6
    var e3 := if form.password == "" || |form.password| < MinPasswordLength then e2["password" := PasswordTooShort] else e2;
    var e4 := if form.password != form.confirmPassword then e3["confirmPassword" := PasswordsDiffer] else e3;
    e4
  }

  /** `validateForm()`'s return value. */
  predicate IsValid(form: Form) {
    |ValidateForm(form)| == 0
  }

  /** The form is valid exactly when every rule passes. */
  lemma ValidIffAllRulesPass(form: Form)
    ensures IsValid(form) <==>
      form.name != "" && MatchesEmailRegex(form.email)
      && |form.password| >= MinPasswordLength && form.password == form.confirmPassword
  {
    var errors := ValidateForm(form);
    if !IsValid(form) {
      var k :| k in errors;
    }
    if IsValid(form) {
      assert errors == map[];
    }
  }

  function SetField(form: Form, field: Field, value: string): Form {
    match field
    case NameField => form.(name := value)
    case EmailField => form.(email := value)
    case PasswordField => form.(password := value)
    case ConfirmField => form.(confirmPassword := value)
  }

  function GetField(form: Form, field: Field): string {
    match field
    case NameField => form.name
    case EmailField => form.email
    case PasswordField => form.password
    case ConfirmField => form.confirmPassword
  }

  /** `handleChange`: the edited field takes the new value; its error, if one
      is showing, is blanked (the key stays, holding ""). */
  function HandleChange(form: Form, errors: map<string, string>, field: Field, value: string): (r: (Form, map<string, string>))
    ensures GetField(r.0, field) == value
    ensures forall f :: f != field ==> GetField(r.0, f) == GetField(form, f)
    ensures r.1.Keys == errors.Keys
    ensures Key(field) in errors ==> r.1[Key(field)] == ""
    ensures forall k :: k in errors && k != Key(field) ==> r.1[k] == errors[k]
  {
    var errors' := if Key(field) in errors && errors[Key(field)] != "" then errors[Key(field) := ""] else errors;
    (SetField(form, field, value), errors')
  }

  /** The body of the registration request: the confirmation is not sent. */
  datatype RegisterRequest = RegisterRequest(name: string, email: string, password: string)

  /** What `handleSubmit` does before any network traffic: the errors it
      shows and the request it sends, if any. */
  datatype Submission = Submission(errors: map<string, string>, request: Option<RegisterRequest>)

  function HandleSubmit(form: Form): (r: Submission)
    ensures r.request.Some? <==> IsValid(form)
    ensures r.request.Some? ==> r.request.value == RegisterRequest(form.name, form.email, form.password)
    ensures r.errors == ValidateForm(form)
  {
    var errors := ValidateForm(form);
    if |errors| == 0 then Submission(errors, Some(RegisterRequest(form.name, form.email, form.password)))
    else Submission(errors, None)
  }

  /** A request only ever carries an acceptable name, email and password. */
  lemma SubmittedRequestIsValid(form: Form)
    requires HandleSubmit(form).request.Some?
    ensures var q := HandleSubmit(form).request.value;
            q.name != "" && MatchesEmailRegex(q.email) && |q.password| >= MinPasswordLength
  {
    ValidIffAllRulesPass(form);
  }
}
