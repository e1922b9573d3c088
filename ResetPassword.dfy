/** The reset-password page (`src/pages/ResetPassword.tsx`): the zod
    `passwordSchema`, `validateForm` and the guards of `handleSubmit`. The
    `resetPassword` call of the auth context is recorded rather than made;
    whether it succeeds is a parameter. */
module ResetPassword {
  import opened Wrappers

  const MinPasswordLength := 6
  const TooShortMessage := "Password must be at least 6 characters"
  const MismatchMessage := "Passwords don't match"
  const InvalidLinkToast := "Invalid password reset link"
  const ResetDoneToast := "Password has been reset successfully!"
  const ResetFailedToast := "Failed to reset password. Please try again."
  const LoginRoute := "/login"

  /** A zod issue: the field it is reported on and its message. */
  datatype Issue = Issue(path: string, message: string)

  /** JavaScript's `length`: characters outside the Basic Multilingual Plane
      take two UTF-16 code units. */
  function Utf16Length(s: string): (n: nat)
    ensures |s| <= n <= 2 * |s|
  {
    if s == [] then 0 else (if s[0] as int > 0xFFFF then 2 else 1) + Utf16Length(s[1..])
  }

  /** The issues `passwordSchema.parse` reports, in order: the field check
      `min(6)` on `password` first, then the `refine` on the whole object, which
      still runs after a failed `min` because that failure does not abort. */
  function SchemaIssues(password: string, confirmPassword: string): (issues: seq<Issue>)
    ensures issues == [] <==> Utf16Length(password) >= MinPasswordLength && password == confirmPassword
    ensures Utf16Length(password) < MinPasswordLength ==> issues[0] == Issue("password", TooShortMessage)
    ensures Utf16Length(password) >= MinPasswordLength && password != confirmPassword ==>
              issues == [Issue("confirmPassword", MismatchMessage)]
    ensures password != confirmPassword ==> Issue("confirmPassword", MismatchMessage) in issues
  {
    (if Utf16Length(password) < MinPasswordLength then [Issue("password", TooShortMessage)] else [])
    + (if password != confirmPassword then [Issue("confirmPassword", MismatchMessage)] else [])
  }

  /** The page's state and what it has done so far. */
  class ResetPasswordPage {
    var password: string
    var confirmPassword: string
    var error: string
    var loading: bool
    /** The `(oobCode, password)` pairs handed to `resetPassword`, in order. */
    var resetRequests: seq<(string, string)>
    var toasts: seq<string>
    var navigations: seq<string>

    constructor ()
      ensures password == "" && confirmPassword == "" && error == "" && !loading
      ensures resetRequests == [] && toasts == [] && navigations == []
    {
      password, confirmPassword, error, loading := "", "", "", false;
      resetRequests, toasts, navigations := [], [], [];
    }

    /** `validateForm`: clears the error on success, else shows the first issue. */
    method ValidateForm() returns (valid: bool)
      modifies this`error
      ensures valid <==> Utf16Length(password) >= MinPasswordLength && password == confirmPassword
      ensures valid ==> error == ""
      ensures !valid ==> error == SchemaIssues(password, confirmPassword)[0].message
      ensures !valid && Utf16Length(password) < MinPasswordLength ==> error == TooShortMessage
      ensures !valid && Utf16Length(password) >= MinPasswordLength ==> error == MismatchMessage
    {
      var issues := SchemaIssues(password, confirmPassword);
      if issues == [] {
        error := "";
        return true;
      }
      error := issues[0].message;
      return false;
    }

    /** `handleSubmit`. `oobCode` is the query parameter (`None` when absent);
        `resetSucceeds` is whether `resetPassword` resolves. */
    method HandleSubmit(oobCode: Option<string>, resetSucceeds: bool)
      modifies this`error, this`loading, this`resetRequests, this`toasts, this`navigations
      ensures var valid := Utf16Length(password) >= MinPasswordLength && password == confirmPassword;
              var linkOk := oobCode.Some? && oobCode.value != "";
              && (valid ==> error == "")
              && (!valid ==> error == SchemaIssues(password, confirmPassword)[0].message)
              && (!(valid && linkOk) ==> resetRequests == old(resetRequests) && loading == old(loading)
                                         && navigations == old(navigations))
              && (!valid ==> toasts == old(toasts))
              && (valid && !linkOk ==> toasts == old(toasts) + [InvalidLinkToast])
              && (valid && linkOk ==> resetRequests == old(resetRequests) + [(oobCode.value, password)] && !loading)
              && (valid && linkOk && resetSucceeds ==>
                    toasts == old(toasts) + [ResetDoneToast] && navigations == old(navigations) + [LoginRoute])
              && (valid && linkOk && !resetSucceeds ==>
                    toasts == old(toasts) + [ResetFailedToast] && navigations == old(navigations))
    {
      var valid := ValidateForm();
      if !valid {
        return;
      }
      if oobCode.None? || oobCode.value == "" {
        toasts := toasts + [InvalidLinkToast];
        return;
      }
      loading := true;
      resetRequests := resetRequests + [(oobCode.value, password)];
      if resetSucceeds {
        toasts := toasts + [ResetDoneToast];
        navigations := navigations + [LoginRoute];
      } else {
        toasts := toasts + [ResetFailedToast];
      }
      loading := false;
    }
  }
}
