/** The registration page: the client-side validator that maps each field to the
    message of its first failing rule, and the submit handler that blocks the
    request while any field fails and picks the message shown when the server
    rejects the registration. */
module Register {
  import opened JsText
  import opened Posts

  datatype Field = Name | Email | Password

  datatype Form = Form(name: string, email: string, password: string) {
    /** `{ ...form, [field]: value }` */
    function With(field: Field, value: string): (f: Form)
      ensures f.Get(field) == value
      ensures forall other :: other != field ==> f.Get(other) == Get(other)
    {
      match field
      case Name => this.(name := value)
      case Email => this.(email := value)
      case Password => this.(password := value)
    }

    function Get(field: Field): string {
      match field
      case Name => name
      case Email => email
      case Password => password
    }
  }

  const NameRequired := "Name is required"
  const NameTooShort := "Name must be at least 3 characters"
  const NameNotCapitalised := "First letter must be uppercase"
  const EmailRequired := "Email is required"
  const EmailInvalid := "Invalid email format"
  const PasswordRequired := "Password is required"
  const PasswordTooShort := "Password must be at least 5 characters"
  const PasswordNoUpper := "Password must contain an uppercase letter"
  const Fallback := "Something went wrong"

  /** The name rules, in order: required, at least 3 characters, a first character
      that `toUpperCase` leaves unchanged. */
  function NameError(name: string): (e: Option<string>)
    ensures name == "" ==> e == Some(NameRequired)
    ensures 0 < |name| < 3 ==> e == Some(NameTooShort)
    ensures |name| >= 3 ==> (e == Some(NameNotCapitalised) <==> IsAsciiLower(name[0]))
    ensures e.None? <==> |name| >= 3 && !IsAsciiLower(name[0])
  {
    if name == "" then Some(NameRequired)
    else if |name| < 3 then Some(NameTooShort)
    else if name[0] != UpperChar(name[0]) then Some(NameNotCapitalised)
    else None
  }

  /** No character of `s` is `\s` or `@`: the class `[^\s@]`, repeated. */
  predicate NoSpaceOrAt(s: string) {
    forall i :: 0 <= i < |s| ==> !IsSpace(s[i]) && s[i] != '@'
  }

  /** `^[^\s@]+@[^\s@]+\.[^\s@]+$` matches `s` with its `@` at index `at` and the
      literal `.` at index `dot`. */
  predicate SplitsAsEmail(s: string, at: int, dot: int) {
    && 0 < at && at + 1 < dot && dot + 1 < |s|
    && s[at] == '@' && s[dot] == '.'
    && NoSpaceOrAt(s[..at]) && NoSpaceOrAt(s[at + 1..dot]) && NoSpaceOrAt(s[dot + 1..])
  }

  /** `emailRegex.test(s)`: some way of splitting `s` fits the pattern. */
  predicate MatchesEmailRegex(s: string) {
    exists at, dot | 0 <= at < |s| && 0 <= dot < |s| :: SplitsAsEmail(s, at, dot)
  }

  /** The pattern in plain words: no whitespace anywhere, exactly one `@`, with
      something before it, and after it a `.` with a character on either side. */
  ghost predicate PlainEmailRule(s: string) {
    && (forall i :: 0 <= i < |s| ==> !IsSpace(s[i]))
    && exists at ::
      && 0 < at < |s| && s[at] == '@'
      && (forall j :: 0 <= j < |s| && s[j] == '@' ==> j == at)
      && exists dot :: at + 1 < dot < |s| - 1 && s[dot] == '.'
  }

  lemma {:induction false} EmailRegexIff(s: string)
    ensures MatchesEmailRegex(s) <==> PlainEmailRule(s)
  {
    if MatchesEmailRegex(s) {
      var at, dot :| 0 <= at < |s| && 0 <= dot < |s| && SplitsAsEmail(s, at, dot);
      forall i | 0 <= i < |s|
        ensures !IsSpace(s[i]) && (s[i] == '@' ==> i == at)
      {
        if i < at {
          assert s[i] == s[..at][i];
        } else if at < i < dot {
          assert s[i] == s[at + 1..dot][i - at - 1];
        } else if dot < i {
          assert s[i] == s[dot + 1..][i - dot - 1];
        }
      }
      assert at + 1 < dot < |s| - 1 && s[dot] == '.';
    }
    if PlainEmailRule(s) {
      var at :| && 0 < at < |s| && s[at] == '@'
        && (forall j :: 0 <= j < |s| && s[j] == '@' ==> j == at)
        && exists dot :: at + 1 < dot < |s| - 1 && s[dot] == '.';
      var dot :| at + 1 < dot < |s| - 1 && s[dot] == '.';
      assert NoSpaceOrAt(s[..at]) by {
        forall i | 0 <= i < at ensures !IsSpace(s[..at][i]) && s[..at][i] != '@' {
          assert s[..at][i] == s[i];
        }
      }
      var domain, tld := s[at + 1..dot], s[dot + 1..];
      assert NoSpaceOrAt(domain) by {
        forall i | 0 <= i < |domain| ensures !IsSpace(domain[i]) && domain[i] != '@' {
          assert domain[i] == s[at + 1 + i];
        }
      }
      assert NoSpaceOrAt(tld) by {
        forall i | 0 <= i < |tld| ensures !IsSpace(tld[i]) && tld[i] != '@' {
          assert tld[i] == s[dot + 1 + i];
        }
      }
      assert SplitsAsEmail(s, at, dot);
    }
  }

  /** The email rules, in order: required, then the pattern. */
  function EmailError(email: string): (e: Option<string>)
    ensures email == "" <==> e == Some(EmailRequired)
    ensures e == Some(EmailInvalid) <==> email != "" && !PlainEmailRule(email)
    ensures e.None? <==> PlainEmailRule(email)
  {
    EmailRegexIff(email);
    if email == "" then Some(EmailRequired)
    else if !MatchesEmailRegex(email) then Some(EmailInvalid)
    else None
  }

  /** The browser's own check on `<input type="email">`, which runs before the
      form's submit event: HTML's "valid e-mail address" is a local part of
      letters, digits, dots and the characters ``!#$%&'*+/=?^_`{|}~-``, an `@`,
      and one or more labels separated by single dots. */
  predicate IsLocalChar(c: char) {
    IsAsciiLower(c) || IsAsciiUpper(c) || '0' <= c <= '9' || c in ".!#$%&'*+/=?^_`{|}~-"
  }

  predicate IsLetDig(c: char) {
    IsAsciiLower(c) || IsAsciiUpper(c) || '0' <= c <= '9'
  }

  /** A domain label: 1 to 63 letters, digits and hyphens, beginning and ending
      with a letter or digit. */
  predicate IsLabel(l: string) {
    && 1 <= |l| <= 63 && IsLetDig(l[0]) && IsLetDig(l[|l| - 1])
    && forall i :: 0 <= i < |l| ==> IsLetDig(l[i]) || l[i] == '-'
  }

  /** One label, or a label, a dot and a shorter domain. */
  predicate IsDomain(d: string)
    decreases |d|
  {
    || IsLabel(d)
    || exists i | 0 < i < |d| :: d[i] == '.' && IsLabel(d[..i]) && IsDomain(d[i + 1..])
  }

  /** `s` is a valid e-mail address with its `@` at index `at`. */
  predicate HtmlEmailAt(s: string, at: int) {
    && 0 < at < |s| && s[at] == '@'
    && (forall i :: 0 <= i < at ==> IsLocalChar(s[i]))
    && IsDomain(s[at + 1..])
  }

  predicate HtmlEmail(s: string) {
    exists at | 0 <= at < |s| :: HtmlEmailAt(s, at)
  }

  /** Without `required` the browser lets an empty email through; a non-empty
      one must be a valid e-mail address, or `submit` never runs. */
  predicate BrowserAccepts(f: Form) {
    f.email == "" || HtmlEmail(f.email)
  }

  /** A domain has no whitespace and no `@`, and neither starts nor ends with a dot. */
  lemma {:induction false} DomainShape(d: string)
    requires IsDomain(d)
    ensures d != [] && d[0] != '.' && d[|d| - 1] != '.'
    ensures forall k :: 0 <= k < |d| ==> !IsSpace(d[k]) && d[k] != '@'
    decreases |d|
  {
    if !IsLabel(d) {
      var i :| 0 < i < |d| && d[i] == '.' && IsLabel(d[..i]) && IsDomain(d[i + 1..]);
      var head, rest := d[..i], d[i + 1..];
      DomainShape(rest);
      forall k | 0 <= k < |d| ensures !IsSpace(d[k]) && d[k] != '@' {
        if k < i {
          assert d[k] == head[k];
        } else if k > i {
          assert d[k] == rest[k - i - 1];
        }
      }
      assert d[|d| - 1] == rest[|rest| - 1];
    }
  }

  /** Once the browser has let an address through, "Invalid email format" is
      shown exactly when no dot follows the `@` ("a@b"); every other address the
      browser accepts also passes the pattern. */
  lemma BrowserCheckedEmailError(s: string, at: int)
    requires HtmlEmailAt(s, at)
    ensures EmailError(s) == Some(EmailInvalid) <==> forall j :: at < j < |s| ==> s[j] != '.'
  {
    var d := s[at + 1..];
    DomainShape(d);
    assert forall j :: at < j < |s| ==> s[j] == d[j - at - 1];
    assert forall i :: 0 <= i < |s| ==> !IsSpace(s[i]);
    assert forall j :: 0 <= j < |s| && s[j] == '@' ==> j == at;
    if exists j :: at < j < |s| && s[j] == '.' {
      var j :| at < j < |s| && s[j] == '.';
      assert at + 1 < j < |s| - 1;
      assert PlainEmailRule(s);
    }
  }

  /** The browser refuses "bad" and "a@b..com" before `submit` runs, so the page
      shows no message of its own for them, although the pattern alone would
      accept "a@b..com". */
  lemma BrowserRefusesSamples()
    ensures !HtmlEmail("bad")
    ensures !HtmlEmail("a@b..com") && EmailError("a@b..com").None?
  {
    var bad := "a@b..com";
    forall at | 0 <= at < |bad| ensures !HtmlEmailAt(bad, at) {
      if at == 1 {
        var d := bad[2..];
        assert d == "b..com";
        assert !IsLabel(d) by { assert d[1] == '.'; }
        forall i | 0 < i < |d| && d[i] == '.' && IsLabel(d[..i]) ensures !IsDomain(d[i + 1..]) {
          assert i == 1;
          var r := d[i + 1..];
          assert r == ".com";
          assert !IsLabel(r);
          assert forall k :: 0 < k < |r| ==> r[k] != '.';
        }
      }
    }
    assert SplitsAsEmail(bad, 1, 3);
    EmailRegexIff(bad);
  }

  /** The browser lets "a@b" through, and the pattern then rejects it: the one
      kind of address for which the page shows "Invalid email format". */
  lemma BrowserPassesDotless()
    ensures HtmlEmail("a@b") && EmailError("a@b") == Some(EmailInvalid)
  {
    var short := "a@b";
    assert IsLabel(short[2..]);
    assert HtmlEmailAt(short, 1);
    BrowserCheckedEmailError(short, 1);
  }

  /** An ordinary address passes both checks. */
  lemma BrowserPassesPlain()
    ensures HtmlEmail("a@b.com") && EmailError("a@b.com").None?
  {
    var good := "a@b.com";
    var d := good[2..];
    assert d[..1] == "b" && d[2..] == "com";
    assert IsLabel(d[..1]) && IsLabel(d[2..]);
    assert IsDomain(d);
    assert HtmlEmailAt(good, 1);
    BrowserCheckedEmailError(good, 1);
    assert good[3] == '.';
  }

  /** `/[A-Z]/.test(s)` */
  predicate HasAsciiUpper(s: string) {
    exists i | 0 <= i < |s| :: IsAsciiUpper(s[i])
  }

  /** The password rules, in order: required, at least 5 characters, an ASCII
      capital letter somewhere. */
  function PasswordError(password: string): (e: Option<string>)
    ensures password == "" ==> e == Some(PasswordRequired)
    ensures 0 < |password| < 5 ==> e == Some(PasswordTooShort)
    ensures |password| >= 5 ==> (e == Some(PasswordNoUpper) <==> !HasAsciiUpper(password))
    ensures e.None? <==> |password| >= 5 && HasAsciiUpper(password)
  {
    if password == "" then Some(PasswordRequired)
    else if |password| < 5 then Some(PasswordTooShort)
    else if !HasAsciiUpper(password) then Some(PasswordNoUpper)
    else None
  }

  /** The rule of one field, applied to that field's value alone. */
  function FieldError(form: Form, field: Field): Option<string> {
    match field
    case Name => NameError(form.name)
    case Email => EmailError(form.email)
    case Password => PasswordError(form.password)
  }

  /** `validate()`: each field that fails gets the message of its first failing
      rule; the three fields are checked independently. */
  function Validate(form: Form): (errors: map<Field, string>)
    ensures forall f :: f in errors <==> FieldError(form, f).Some?
    ensures forall f :: f in errors ==> errors[f] == FieldError(form, f).value
    ensures errors == map[] <==>
      && NameError(form.name).None? && EmailError(form.email).None? && PasswordError(form.password).None?
  {
    var n := NameError(form.name);
    var e := EmailError(form.email);
    var p := PasswordError(form.password);
    var errors :=
      (if n.Some? then map[Name := n.value] else map[])
      + (if e.Some? then map[Email := e.value] else map[])
      + (if p.Some? then map[Password := p.value] else map[]);
    assert n.Some? ==> Name in errors;
    assert e.Some? ==> Email in errors;
    assert p.Some? ==> Password in errors;
    errors
  }

  /** Whether a field has an error, and which, depends on that field's value only. */
  lemma FieldIndependence(a: Form, b: Form, field: Field)
    requires a.Get(field) == b.Get(field)
    ensures field in Validate(a) <==> field in Validate(b)
    ensures field in Validate(a) ==> Validate(a)[field] == Validate(b)[field]
  {
    assert FieldError(a, field) == FieldError(b, field);
  }

  /** The form is accepted exactly when every field passes its rules, stated
      without the validator's own branches. */
  lemma ValidIff(form: Form)
    ensures Validate(form) == map[] <==>
      && |form.name| >= 3 && !IsAsciiLower(form.name[0])
      && PlainEmailRule(form.email)
      && |form.password| >= 5 && HasAsciiUpper(form.password)
  {
  }

  /** Sample forms: one failing field each, and a valid one. */
  lemma SampleForms()
    ensures Validate(Form("bob", "a@b.com", "Abcde")) == map[Name := NameNotCapitalised]
    ensures Validate(Form("Bob", "bad", "Abcde")) == map[Email := EmailInvalid]
    ensures Validate(Form("Bob", "a@b.com", "abcde")) == map[Password := PasswordNoUpper]
    ensures Validate(Form("Bob", "a@b.com", "Abcde")) == map[]
    ensures Validate(Form("1ab", "a@b.com", "Abcde")) == map[]
  {
    assert SplitsAsEmail("a@b.com", 1, 3) by {
      assert "a@b.com"[..1] == "a";
      assert "a@b.com"[2..3] == "b";
      assert "a@b.com"[4..] == "com";
    }
    assert !PlainEmailRule("bad");
    assert HasAsciiUpper("Abcde") by { assert IsAsciiUpper("Abcde"[0]); }
    assert !HasAsciiUpper("abcde");
    var bad := Validate(Form("Bob", "bad", "Abcde"));
    assert bad.Keys == {Email};
  }

  /** `err.response.data` of a rejected registration. */
  datatype ErrorBody = ErrorBody(message: Option<string>, errors: Option<seq<FieldMessage>>)
  datatype FieldMessage = FieldMessage(msg: Option<string>)

  datatype RegisterOutcome = Registered | Rejected(data: Option<ErrorBody>)

  /** A string option that `||` treats as true: present and not empty. */
  predicate Truthy(s: Option<string>) {
    s.Some? && s.value != ""
  }

  /** `err.response?.data?.errors?.[0]?.msg` */
  function FirstErrorMsg(data: Option<ErrorBody>): Option<string> {
    if data.Some? && data.value.errors.Some? && |data.value.errors.value| > 0
    then data.value.errors.value[0].msg
    else None
  }

  /** `data.message || data.errors[0].msg || "Something went wrong"`: the message
      shown is never empty, and is one of the three candidates in that order. */
  function ServerMessage(data: Option<ErrorBody>): (m: string)
    ensures m != ""
    ensures data.Some? && Truthy(data.value.message) ==> m == data.value.message.value
    ensures !(data.Some? && Truthy(data.value.message)) && Truthy(FirstErrorMsg(data))
      ==> m == FirstErrorMsg(data).value
    ensures m == Fallback <==>
      || (!(data.Some? && Truthy(data.value.message)) && !Truthy(FirstErrorMsg(data)))
      || (data.Some? && data.value.message == Some(Fallback))
      || (!(data.Some? && Truthy(data.value.message)) && FirstErrorMsg(data) == Some(Fallback))
  {
    if data.Some? && Truthy(data.value.message) then data.value.message.value
    else if Truthy(FirstErrorMsg(data)) then FirstErrorMsg(data).value
    else Fallback
  }

  /** The page's state. `redirected` records the `navigate("/login")` call. */
  class RegisterPage {
    var form: Form
    var errors: map<Field, string>
    var serverError: string
    var loading: bool
    var redirected: bool

    constructor ()
      ensures form == Form("", "", "") && errors == map[] && serverError == ""
      ensures !loading && !redirected
    {
      form := Form("", "", "");
      errors := map[];
      serverError := "";
      loading := false;
      redirected := false;
    }

    /** `handleChange`: one field of the form takes the typed value. */
    method HandleChange(field: Field, value: string)
      modifies this
      ensures form == old(form).With(field, value)
      ensures errors == old(errors) && serverError == old(serverError)
      ensures loading == old(loading) && redirected == old(redirected)
    {
      form := form.With(field, value);
    }

    /** Pressing "Sign Up". The browser first checks the `type="email"` field and,
        when it refuses the address, shows its own tooltip and never calls
        `submit`. Otherwise `submit` clears the messages, validates, and either
        records the errors without sending anything or sends the form; a
        rejection shows the server's message, and loading is off again once the
        request has settled. */
    method Submit(outcome: RegisterOutcome) returns (sent: Option<Request>)
      modifies this
      ensures form == old(form)
      ensures !BrowserAccepts(form) ==>
        && sent == None && errors == old(errors) && serverError == old(serverError)
        && loading == old(loading) && redirected == old(redirected)
      ensures BrowserAccepts(form) && Validate(form) != map[] ==>
        && sent == None && errors == Validate(form) && serverError == ""
        && loading == old(loading) && redirected == old(redirected)
      ensures BrowserAccepts(form) && Validate(form) == map[] ==>
        && sent == Some(RegisterRequest(form.name, form.email, form.password))
        && errors == map[] && !loading
        && (outcome.Registered? ==> redirected && serverError == "")
        && (outcome.Rejected? ==> redirected == old(redirected) && serverError == ServerMessage(outcome.data))
    {
      if !BrowserAccepts(form) {
        return None;
      }
      errors := map[];
      serverError := "";
      var validation := Validate(form);
      if validation != map[] {
        errors := validation;
        return None;
      }
      loading := true;
      sent := Some(RegisterRequest(form.name, form.email, form.password));
      match outcome {
        case Registered =>
          redirected := true;
        case Rejected(data) =>
          serverError := ServerMessage(data);
      }
      loading := false;
    }
  }
}
