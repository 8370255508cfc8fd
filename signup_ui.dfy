/**
 * The sign-up form of the front end: local form state, client-side field
 * validation and the submit handler. It talks to no server.
 */
module SignupUi {
  import opened JsText

  datatype Field = Name | Username | Email | Password | ConfirmPassword

  datatype FormData = FormData(name: string, username: string, email: string, password: string, confirmPassword: string)
  {
    function Get(f: Field): string {
      match f
      case Name => name
      case Username => username
      case Email => email
      case Password => password
      case ConfirmPassword => confirmPassword
    }

    /** The record with one field replaced. */
    function With(f: Field, value: string): (r: FormData)
      ensures r.Get(f) == value
      ensures forall g :: g != f ==> r.Get(g) == Get(g)
    {
      match f
      case Name => this.(name := value)
      case Username => this.(username := value)
      case Email => this.(email := value)
      case Password => this.(password := value)
      case ConfirmPassword => this.(confirmPassword := value)
    }
  }

  /** The initial, and the post-submit, form contents. */
  const Blank := FormData("", "", "", "", "")

  const EnterName := "Please enter your name."
  const EnterUsername := "Please enter a username."
  const EnterValidEmail := "Please enter a valid email address."
  const PasswordTooShort := "Password must be at least 6 characters."
  const PasswordsDiffer := "Passwords do not match."

  // ---------------------------------------------------------------------------
  // The e-mail pattern: one or more characters that are neither whitespace nor
  // '@', then '@', then one or more such characters, '.', and one or more such
  // characters, anchored at both ends.
  // ---------------------------------------------------------------------------

  predicate Plain(c: char) { !IsWhitespace(c) && c != '@' }

  predicate PlainRun(t: string) { |t| > 0 && forall k :: 0 <= k < |t| ==> Plain(t[k]) }

  /** `s` matches the pattern with its '@' at `i` and the chosen '.' at `j`. */
  ghost predicate MatchesAt(s: string, i: nat, j: nat) {
    && i < j < |s|
    && s[i] == '@' && s[j] == '.'
    && PlainRun(s[..i]) && PlainRun(s[i + 1..j]) && PlainRun(s[j + 1..])
  }

  /** The meaning of the anchored pattern: some way of splitting `s` matches. */
  ghost predicate EmailPattern(s: string) {
    exists i: nat, j: nat :: MatchesAt(s, i, j)
  }

  predicate NoWhitespace(s: string) { forall k | 0 <= k < |s| :: !IsWhitespace(s[k]) }

  /** The only '@' of `s` is at `i`. */
  predicate OnlyAtSign(s: string, i: nat) { forall k | 0 <= k < |s| && k != i :: s[k] != '@' }

  /** A '.' sits after `s[i + 1]` and before the last character. */
  predicate DotAfter(s: string, i: nat) { exists j | i + 1 < j < |s| - 1 :: s[j] == '.' }

  predicate EmailTest(s: string) {
    NoWhitespace(s) && exists i | 0 < i < |s| :: s[i] == '@' && OnlyAtSign(s, i) && DotAfter(s, i)
  }

  /**
   * The executable test: no whitespace, exactly one '@', not first, and a '.'
   * strictly between the character after the '@' and the last character.
   */
  function ValidateEmail(email: string): (r: bool)
    ensures r <==> EmailPattern(email)
  {
    EmailTestMeansPattern(email);
    EmailTest(email)
  }

  lemma PlainSlice(s: string, lo: nat, hi: nat)
    requires lo < hi <= |s|
    requires forall k | lo <= k < hi :: Plain(s[k])
    ensures PlainRun(s[lo..hi])
  {
  }

  lemma EmailTestMeansPattern(s: string)
    ensures EmailTest(s) <==> EmailPattern(s)
  {
    if EmailTest(s) {
      var i :| 0 < i < |s| && s[i] == '@' && OnlyAtSign(s, i) && DotAfter(s, i);
      var j :| i + 1 < j < |s| - 1 && s[j] == '.';
      PlainSlice(s, 0, i);
      PlainSlice(s, i + 1, j);
      PlainSlice(s, j + 1, |s|);
      assert s[..i] == s[0..i] && s[j + 1..] == s[j + 1..|s|];
      assert MatchesAt(s, i, j);
    }
    if EmailPattern(s) {
      var i: nat, j: nat :| MatchesAt(s, i, j);
      forall k | 0 <= k < |s| && k != i && k != j ensures Plain(s[k]) {
        if k < i {
          assert s[k] == s[..i][k];
        } else if k < j {
          assert s[k] == s[i + 1..j][k - i - 1];
        } else {
          assert s[k] == s[j + 1..][k - j - 1];
        }
      }
      assert |s[..i]| > 0 && |s[i + 1..j]| > 0 && |s[j + 1..]| > 0;
      assert NoWhitespace(s);
      assert OnlyAtSign(s, i);
      assert DotAfter(s, i);
    }
  }

  // ---------------------------------------------------------------------------
  // Validation of the whole form
  // ---------------------------------------------------------------------------

  // `!s.trim()` holds exactly when `s` is all white space (the contract of
  // `JsText.Trim`), so the rules below test `AllWhitespace` directly.

  /** The e-mail rule of the form: blank, or not matching the pattern. */
  function EmailRejected(email: string): (r: bool)
    ensures r <==> AllWhitespace(email) || !EmailPattern(email)
  {
    AllWhitespace(email) || !ValidateEmail(email)
  }

  /** The error shown under each field that fails its rule; no entry otherwise. */
  function FieldErrors(form: FormData): (errors: map<Field, string>)
    ensures Name in errors <==> AllWhitespace(form.name)
    ensures Username in errors <==> AllWhitespace(form.username)
    ensures Email in errors <==> AllWhitespace(form.email) || !EmailPattern(form.email)
    ensures Password in errors <==> |form.password| < 6
    ensures ConfirmPassword in errors <==> form.password != form.confirmPassword
    ensures Name in errors ==> errors[Name] == EnterName
    ensures Username in errors ==> errors[Username] == EnterUsername
    ensures Email in errors ==> errors[Email] == EnterValidEmail
    ensures Password in errors ==> errors[Password] == PasswordTooShort
    ensures ConfirmPassword in errors ==> errors[ConfirmPassword] == PasswordsDiffer
  {
    var e0: map<Field, string> := map[];
    var e1 := if AllWhitespace(form.name) then e0[Name := EnterName] else e0;
    var e2 := if AllWhitespace(form.username) then e1[Username := EnterUsername] else e1;
    var e3 := if EmailRejected(form.email) then e2[Email := EnterValidEmail] else e2;
    var e4 := if form.password == [] || |form.password| < 6 then e3[Password := PasswordTooShort] else e3;
    if form.password != form.confirmPassword then e4[ConfirmPassword := PasswordsDiffer] else e4
  }

  /** The form is accepted exactly when every rule holds. */
  ghost predicate Acceptable(form: FormData) {
    && !AllWhitespace(form.name) && !AllWhitespace(form.username)
    && EmailPattern(form.email) && |form.password| >= 6 && form.password == form.confirmPassword
  }

  /** No errors exactly when the form is acceptable; a matching e-mail is never blank. */
  lemma NoErrorsIffAcceptable(form: FormData)
    ensures FieldErrors(form) == map[] <==> Acceptable(form)
  {
  }

  /** A string matching the e-mail pattern is never blank, so the blank test adds nothing. */
  lemma EmailIsNotBlank(s: string)
    requires EmailPattern(s)
    ensures !AllWhitespace(s) && Trim(s) != []
  {
  }

  lemma EmailShortestAccepted()
    ensures ValidateEmail("a@b.c")
  {
    assert "a@b.c"[1] == '@' && "a@b.c"[3] == '.';
  }

  /** Dots may appear on both sides of the '@'. */
  lemma EmailWithDotsAccepted()
    ensures ValidateEmail("a.b@c.d.e")
  {
    assert "a.b@c.d.e"[3] == '@' && "a.b@c.d.e"[5] == '.';
  }

  lemma EmailRejectedExamples()
    ensures !ValidateEmail("a@b") && !ValidateEmail("@b.c") && !ValidateEmail("a@.c") && !ValidateEmail("a@b.")
  {
  }

  lemma EmailWithTwoAtSignsRejected()
    ensures !ValidateEmail("a@b@c.d")
  {
    assert "a@b@c.d"[1] == '@' && "a@b@c.d"[3] == '@';
  }

  lemma EmailWithSpaceRejected()
    ensures !ValidateEmail("a b@c.d")
  {
    assert "a b@c.d"[1] == ' ';
  }

  /** The blank form, shown again after a successful submit, has every rule but the confirmation failing. */
  lemma BlankIsRejected()
    ensures Name in FieldErrors(Blank) && Username in FieldErrors(Blank)
    ensures Email in FieldErrors(Blank) && Password in FieldErrors(Blank)
    ensures ConfirmPassword !in FieldErrors(Blank)
  {
  }

  // ---------------------------------------------------------------------------
  // The component's state and handlers
  // ---------------------------------------------------------------------------

  class SignUpForm {
    var formData: FormData
    var errors: map<Field, string>

    constructor ()
      ensures formData == Blank && errors == map[]
    {
      formData := Blank;
      errors := map[];
    }

    /**
     * Collects an error for every failing rule, not just the first, stores
     * them, and reports whether there were none.
     */
    method Validate() returns (ok: bool)
      modifies this`errors
      ensures errors == FieldErrors(formData)
      ensures ok <==> errors == map[]
    {
      var form := formData;
      var newErrors: map<Field, string> := map[];
      if AllWhitespace(form.name) {
        newErrors := newErrors[Name := EnterName];
      }
      if AllWhitespace(form.username) {
        newErrors := newErrors[Username := EnterUsername];
      }
      if EmailRejected(form.email) {
        newErrors := newErrors[Email := EnterValidEmail];
      }
      if form.password == [] || |form.password| < 6 {
        newErrors := newErrors[Password := PasswordTooShort];
      }
      if form.password != form.confirmPassword {
        newErrors := newErrors[ConfirmPassword := PasswordsDiffer];
      }
      errors := newErrors;
      ok := newErrors == map[];
    }

    /** An edit of one input: that field takes the new value; errors stay as they were. */
    method HandleChange(field: Field, value: string)
      modifies this`formData
      ensures formData == old(formData).With(field, value)
    {
      formData := formData.With(field, value);
    }

    /**
     * Submit: a form without field errors (an acceptable one, by
     * `NoErrorsIffAcceptable`) is cleared back to blank with no errors shown;
     * otherwise the input is kept and the errors are shown.
     */
    method HandleSubmit() returns (accepted: bool)
      modifies this
      ensures accepted <==> FieldErrors(old(formData)) == map[]
      ensures accepted ==> formData == Blank && errors == map[]
      ensures !accepted ==> formData == old(formData) && errors == FieldErrors(formData)
    {
      accepted := Validate();
      if accepted {
        formData := Blank;
        errors := map[];
      }
    }
  }
}
