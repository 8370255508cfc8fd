/**
 * The sign-up form and the sign-up route check passwords differently: the
 * form asks only for 6 characters, the route also for the character pattern.
 */
module FormVsServer {
  import opened Wrappers
  import opened AuthRoutes
  import opened SignupUi

  /** Every password the route accepts also passes the form's password rule. */
  lemma ServerRuleImpliesFormRule(form: FormData)
    requires PasswordProblem(form.password).None?
    ensures Password !in FieldErrors(form)
  {
  }

  /** The converse fails: the form lets through a password the route rejects as too weak. */
  lemma FormRuleIsWeaker()
    ensures Password !in FieldErrors(FormData("Ann", "ann", "ann@example.org", "abcdef", "abcdef"))
    ensures PasswordProblem("abcdef") == Some(PasswordTooWeak)
  {
  }
}
